/** The service teardown of crates/lucidos-app/src/desktop.rs on a millisecond clock.
    Probes take no time. Waiting does. */
module ServiceTeardown {
  import opened Sequences
  import opened Wrappers

  const LAUNCHD_EXIT_TIMEOUT := 20000
  const SERVICE_TEARDOWN_ALLOWANCE := 3000
  const ENGINE_KILL_GRACE := 1000
  const TEARDOWN_POLL_INTERVAL := 200
  const SUPERVISE_POLL := 500

  /** An engine asked to stop that was alive when it was asked. */
  datatype SignalledEngine = SignalledEngine(id: string, pid: int)

  /** The process table over time, as the probes see it: does a pid answer a signal,
      is it gone for sure, does it run the engine, does it provably run something else. */
  datatype Processes = Processes(
    answers: (int, nat) -> bool, gone: (int, nat) -> bool, runsEngine: (int, nat) -> bool, runsAnother: (int, nat) -> bool)

  function EngineExitWait(spent: nat): nat {
    var budget := LAUNCHD_EXIT_TIMEOUT - SERVICE_TEARDOWN_ALLOWANCE;
    if spent >= budget then 0 else budget - spent
  }

  // ---- Which engines are signalled ----

  /** A workspace directory: its name where that is UTF-8, the pid its lock holder
      names, and the pid of a successor waiting for it. */
  datatype Workspace = Workspace(name: Option<string>, owner: Option<int>, waiting: Option<int>)

  function PidsOf(w: Workspace): (r: seq<int>)
    ensures |r| <= 2
  {
    (if w.owner.Some? then [w.owner.value] else []) + (if w.waiting.Some? then [w.waiting.value] else [])
  }

  /** Alive, and not provably something else. */
  predicate GetsSignal(p: Processes, pid: int, now: nat) {
    p.answers(pid, now) && !p.runsAnother(pid, now)
  }

  function StoppedIn(p: Processes, w: Workspace, pids: seq<int>, now: nat): seq<SignalledEngine> {
    if pids == [] || w.name.None? then []
    else
      (if GetsSignal(p, pids[0], now) then [SignalledEngine(w.name.value, pids[0])] else [])
      + StoppedIn(p, w, pids[1..], now)
  }

  function Stopped(p: Processes, ws: seq<Workspace>, now: nat): seq<SignalledEngine> {
    if ws == [] then [] else Stopped(p, ws[..|ws| - 1], now) + StoppedIn(p, ws[|ws| - 1], PidsOf(ws[|ws| - 1]), now)
  }

  function Ids(engines: seq<SignalledEngine>): (r: seq<string>)
    ensures |r| == |engines| && forall i :: 0 <= i < |r| ==> r[i] == engines[i].id
  {
    if engines == [] then [] else [engines[0].id] + Ids(engines[1..])
  }

  /** Dropping an element equal to the one before it. */
  function Dedup(s: seq<string>): seq<string> {
    if |s| < 2 then s
    else if s[|s| - 2] == s[|s| - 1] then Dedup(s[..|s| - 1])
    else Dedup(s[..|s| - 1]) + [s[|s| - 1]]
  }

  /** Equal elements stand next to each other. */
  ghost predicate Grouped(s: seq<string>) {
    forall i, j, k :: 0 <= i <= j <= k < |s| && s[i] == s[k] ==> s[j] == s[i]
  }

  lemma GroupEnds(s: seq<string>, i: nat)
    requires Grouped(s) && |s| >= 2 && s[|s| - 2] != s[|s| - 1] && i < |s| - 1
    ensures s[i] != s[|s| - 1]
  {
  }

  lemma {:induction false} DedupOfGrouped(s: seq<string>)
    requires Grouped(s)
    ensures NoDuplicates(Dedup(s))
    ensures forall x :: x in Dedup(s) <==> x in s
    ensures s != [] ==> Dedup(s) != [] && Dedup(s)[|Dedup(s)| - 1] == s[|s| - 1]
    decreases |s|
  {
    if |s| >= 2 {
      var init, last := s[..|s| - 1], s[|s| - 1];
      DedupOfGrouped(init);
      assert s == init + [last];
      if s[|s| - 2] != last {
        forall i | 0 <= i < |init| ensures init[i] != last {
          GroupEnds(s, i);
        }
        assert last !in Dedup(init);
      } else {
        assert last in init;
      }
    }
  }

  ghost predicate NamesDiffer(ws: seq<Workspace>) {
    forall i, j :: 0 <= i < j < |ws| && ws[i].name.Some? ==> ws[i].name != ws[j].name
  }

  lemma {:induction false} StoppedInIds(p: Processes, w: Workspace, pids: seq<int>, now: nat)
    ensures forall e :: e in StoppedIn(p, w, pids, now) <==>
              w.name == Some(e.id) && e.pid in pids && GetsSignal(p, e.pid, now)
    decreases |pids|
  {
    if pids != [] && w.name.Some? {
      StoppedInIds(p, w, pids[1..], now);
    }
  }

  /** Every signalled pid of a named workspace is recorded, and nothing else. */
  lemma {:induction false} StoppedAreSignalled(p: Processes, ws: seq<Workspace>, now: nat)
    ensures forall e :: e in Stopped(p, ws, now) <==>
              exists i :: 0 <= i < |ws| && ws[i].name == Some(e.id) && e.pid in PidsOf(ws[i]) && GetsSignal(p, e.pid, now)
    decreases |ws|
  {
    hide GetsSignal;
    if ws != [] {
      var init, last := ws[..|ws| - 1], ws[|ws| - 1];
      StoppedAreSignalled(p, init, now);
      StoppedInIds(p, last, PidsOf(last), now);
      forall e | e in Stopped(p, ws, now)
        ensures exists i :: 0 <= i < |ws| && ws[i].name == Some(e.id) && e.pid in PidsOf(ws[i]) && GetsSignal(p, e.pid, now)
      {
        if e in StoppedIn(p, last, PidsOf(last), now) {
          assert ws[|ws| - 1].name == Some(e.id);
        } else {
          var i :| 0 <= i < |init| && init[i].name == Some(e.id) && e.pid in PidsOf(init[i]) && GetsSignal(p, e.pid, now);
          assert ws[i] == init[i];
        }
      }
      forall e: SignalledEngine, i | 0 <= i < |ws| && ws[i].name == Some(e.id) && e.pid in PidsOf(ws[i]) && GetsSignal(p, e.pid, now)
        ensures e in Stopped(p, ws, now)
      {
        if i < |init| {
          assert init[i] == ws[i];
        }
      }
    }
  }

  lemma IdsOfNew(p: Processes, w: Workspace, pids: seq<int>, now: nat)
    ensures forall i :: 0 <= i < |Ids(StoppedIn(p, w, pids, now))| ==> Some(Ids(StoppedIn(p, w, pids, now))[i]) == w.name
  {
    hide Ids, StoppedIn;
    StoppedInIds(p, w, pids, now);
    var es := StoppedIn(p, w, pids, now);
    forall i | 0 <= i < |es| ensures Some(Ids(es)[i]) == w.name {
      assert es[i] in es;
    }
  }

  lemma IdsOfEarlier(p: Processes, ws: seq<Workspace>, now: nat, name: Option<string>)
    requires forall i :: 0 <= i < |ws| && ws[i].name.Some? ==> ws[i].name != name
    ensures forall i :: 0 <= i < |Ids(Stopped(p, ws, now))| ==> Some(Ids(Stopped(p, ws, now))[i]) != name
  {
    hide Ids, Stopped, GetsSignal, PidsOf;
    StoppedAreSignalled(p, ws, now);
    var es := Stopped(p, ws, now);
    forall i | 0 <= i < |es| ensures Some(Ids(es)[i]) != name {
      assert es[i] in es;
    }
  }

  lemma {:induction false} IdsAppend(a: seq<SignalledEngine>, b: seq<SignalledEngine>)
    ensures Ids(a + b) == Ids(a) + Ids(b)
  {
  }

  /** Ids come workspace by workspace, so equal ones are neighbours. */
  lemma {:induction false} StoppedIdsAreGrouped(p: Processes, ws: seq<Workspace>, now: nat)
    requires NamesDiffer(ws)
    ensures Grouped(Ids(Stopped(p, ws, now)))
    decreases |ws|
  {
    hide GetsSignal, Ids, StoppedIn, Grouped;
    if ws != [] {
      var init, last := ws[..|ws| - 1], ws[|ws| - 1];
      assert NamesDiffer(init);
      StoppedIdsAreGrouped(p, init, now);
      var a, b := Stopped(p, init, now), StoppedIn(p, last, PidsOf(last), now);
      IdsOfNew(p, last, PidsOf(last), now);
      if last.name.Some? {
        IdsOfEarlier(p, init, now, last.name);
      }
      GroupedAppend(Ids(a), Ids(b), last.name);
      IdsAppend(a, b);
    } else {
      NoIds();
    }
  }

  lemma NoIds()
    ensures Grouped(Ids([]))
  {
  }

  lemma GroupedAppend(a: seq<string>, b: seq<string>, name: Option<string>)
    requires Grouped(a) && (forall i :: 0 <= i < |b| ==> Some(b[i]) == name)
    requires forall i :: 0 <= i < |a| ==> Some(a[i]) != name
    ensures Grouped(a + b)
  {
  }

  // ---- The next-boot record ----

  datatype NextBoot = Absent | Quit | Restore(ids: seq<string>) | Unreadable

  /** A declared quit stays. Otherwise the stopped workspaces are written down. */
  function RecordAfter(record: NextBoot, ids: seq<string>): NextBoot {
    if record.Quit? then record else if ids == [] then Absent else Restore(ids)
  }

  /** A declared quit survives the teardown, and anything else becomes exactly the
      workspaces that have a signalled engine and a name that can be read, each once. */
  lemma RecordIsRight(p: Processes, ws: seq<Workspace>, now: nat, record: NextBoot)
    requires NamesDiffer(ws)
    ensures
      var after := RecordAfter(record, Dedup(Ids(Stopped(p, ws, now))));
      && (record.Quit? ==> after == Quit)
      && (!record.Quit? ==>
            && (after.Restore? || after.Absent?)
            && (after.Restore? ==> after.ids != [] && NoDuplicates(after.ids))
            && forall id :: (after.Restore? && id in after.ids) <==>
                 exists e :: e in Stopped(p, ws, now) && e.id == id)
  {
    var engines := Stopped(p, ws, now);
    StoppedIdsAreGrouped(p, ws, now);
    DedupOfGrouped(Ids(engines));
    hide Stopped, Dedup;
    forall id ensures id in Ids(engines) <==> exists e :: e in engines && e.id == id {
      if id in Ids(engines) {
        var i :| 0 <= i < |engines| && Ids(engines)[i] == id;
        assert engines[i] in engines;
      }
      if e :| e in engines && e.id == id {
        var i :| 0 <= i < |engines| && engines[i] == e;
        assert Ids(engines)[i] == id;
      }
    }
  }

  // ---- Waiting ----

  /** What the teardown does to other processes, with its time: a signal 0 that only asks,
      the stop signal, the kill, and the database's stop. */
  datatype Event = Probe(pid: int, at: nat) | Signal(pid: int, at: nat) | Kill(pid: int, at: nat) | StopPostgres(at: nat)

  /** Did a probe among the events see that `pid` is gone? */
  ghost predicate SeenGone(p: Processes, events: seq<Event>, pid: int) {
    exists t :: Probe(pid, t) in events && p.gone(pid, t)
  }

  /** The events are probes of these engines, in that time. */
  ghost predicate AreProbes(engines: seq<SignalledEngine>, events: seq<Event>, from: nat, upto: nat) {
    forall v :: v in events ==> from <= v.at <= upto && exists e :: e in engines && v == Probe(e.pid, v.at)
  }

  function ProbesOf(engines: seq<SignalledEngine>, now: nat): (r: seq<Event>)
    ensures |r| == |engines| && forall i :: 0 <= i < |r| ==> r[i] == Probe(engines[i].pid, now)
  {
    seq(|engines|, i requires 0 <= i < |engines| => Probe(engines[i].pid, now))
  }

  function StillThere(p: Processes, engines: seq<SignalledEngine>, now: nat): (r: seq<SignalledEngine>)
    ensures forall e :: e in r <==> e in engines && !p.gone(e.pid, now)
  {
    if engines == [] then []
    else (if p.gone(engines[0].pid, now) then [] else [engines[0]]) + StillThere(p, engines[1..], now)
  }

  /** The engines that no probe saw gone. */
  ghost predicate IsLeft(p: Processes, engines: seq<SignalledEngine>, probes: seq<Event>, left: seq<SignalledEngine>) {
    forall e :: e in left <==> e in engines && !SeenGone(p, probes, e.pid)
  }

  /** What is left after a wait from `start` to `end`: the engines no probe saw gone, each
      of them probed at the very end. */
  ghost predicate WaitedOut(p: Processes, engines: seq<SignalledEngine>, start: nat, timeout: nat, probes: seq<Event>,
                            left: seq<SignalledEngine>, end: nat) {
    && AreProbes(engines, probes, start, end)
    && IsLeft(p, engines, probes, left)
    && (forall e :: e in left ==> Probe(e.pid, end) in probes)
    && (end == start || end < start + timeout + TEARDOWN_POLL_INTERVAL)
    && (left != [] ==> end >= start + timeout)
  }

  /** One more pass over the engines not yet seen gone. */
  lemma OnePass(p: Processes, engines: seq<SignalledEngine>, probes: seq<Event>, left: seq<SignalledEngine>, now: nat)
    requires IsLeft(p, engines, probes, left)
    ensures
      var more := probes + ProbesOf(left, now);
      && IsLeft(p, engines, more, StillThere(p, left, now))
      && (forall e :: e in StillThere(p, left, now) ==> Probe(e.pid, now) in more)
  {
    var more := probes + ProbesOf(left, now);
    forall e | e in engines ensures e in StillThere(p, left, now) <==> !SeenGone(p, more, e.pid) {
      if e in left {
        ProbedNow(left, e, now);
        assert Probe(e.pid, now) in more;
        if SeenGone(p, more, e.pid) {
          var t :| Probe(e.pid, t) in more && p.gone(e.pid, t);
          assert t == now || Probe(e.pid, t) in probes;
        }
      } else {
        var t :| Probe(e.pid, t) in probes && p.gone(e.pid, t);
        assert Probe(e.pid, t) in more;
      }
    }
    forall e | e in StillThere(p, left, now) ensures Probe(e.pid, now) in more {
      ProbedNow(left, e, now);
    }
  }

  lemma ProbedNow(left: seq<SignalledEngine>, e: SignalledEngine, now: nat)
    requires e in left
    ensures Probe(e.pid, now) in ProbesOf(left, now)
  {
    var i :| 0 <= i < |left| && left[i] == e;
    assert ProbesOf(left, now)[i] == Probe(e.pid, now);
  }

  lemma ProbesGrow(p: Processes, engines: seq<SignalledEngine>, probes: seq<Event>, left: seq<SignalledEngine>, from: nat,
                   now: nat)
    requires from <= now && AreProbes(engines, probes, from, now) && IsLeft(p, engines, probes, left)
    ensures AreProbes(engines, probes + ProbesOf(left, now), from, now)
  {
    forall v | v in ProbesOf(left, now)
      ensures from <= v.at <= now && exists e :: e in engines && v == Probe(e.pid, v.at)
    {
      var i :| 0 <= i < |left| && v == ProbesOf(left, now)[i];
      assert left[i] in left && v == Probe(left[i].pid, v.at);
    }
  }

  lemma ProbesKeep(engines: seq<SignalledEngine>, probes: seq<Event>, from: nat, now: nat, later: nat)
    requires now <= later && AreProbes(engines, probes, from, now)
    ensures AreProbes(engines, probes, from, later)
  {
  }

  lemma ProbesOfMore(some: seq<SignalledEngine>, all: seq<SignalledEngine>, probes: seq<Event>, from: nat, upto: nat)
    requires AreProbes(some, probes, from, upto) && forall e :: e in some ==> e in all
    ensures AreProbes(all, probes, from, upto)
  {
    forall v | v in probes ensures from <= v.at <= upto && exists e :: e in all && v == Probe(e.pid, v.at) {
      var e :| e in some && v == Probe(e.pid, v.at);
      assert e in all;
    }
  }

  lemma NothingSeen(p: Processes, engines: seq<SignalledEngine>, now: nat)
    ensures IsLeft(p, engines, [], engines) && AreProbes(engines, [], now, now)
  {
  }

  lemma WaitEnds(p: Processes, engines: seq<SignalledEngine>, start: nat, timeout: nat, probes: seq<Event>,
                 left: seq<SignalledEngine>, end: nat)
    requires AreProbes(engines, probes, start, end) && IsLeft(p, engines, probes, left)
    requires forall e :: e in left ==> Probe(e.pid, end) in probes
    requires end == start || end < start + timeout + TEARDOWN_POLL_INTERVAL
    requires left != [] ==> end >= start + timeout
    ensures WaitedOut(p, engines, start, timeout, probes, left, end)
  {
  }

  function KillsOf(engines: seq<SignalledEngine>, now: nat): (r: seq<Event>)
    ensures |r| == |engines| && forall i :: 0 <= i < |r| ==> r[i] == Kill(engines[i].pid, now)
  {
    seq(|engines|, i requires 0 <= i < |engines| => Kill(engines[i].pid, now))
  }

  /** How the engines were finished off: the probes of the first wait, when it ended, the
      kills, and the probes of the second wait. */
  datatype Finish = Finish(waiting: seq<Event>, decided: nat, kills: seq<Event>, after: seq<Event>)

  function EventsOf(f: Finish): seq<Event> { f.waiting + f.kills + f.after }

  /** The engines that no probe saw gone in time. */
  ghost predicate Outlasts(p: Processes, f: Finish, e: SignalledEngine) {
    !SeenGone(p, f.waiting, e.pid)
  }

  /** Everything the code promises of one teardown's end. An engine that outlasts the wait
      was probed when it ended, the wait was over, and the engine is killed exactly when it
      still runs the engine; a killed one is then seen gone or given its grace. Nothing
      else is killed. */
  ghost predicate IsFinish(p: Processes, engines: seq<SignalledEngine>, start: nat, timeout: nat, f: Finish, end: nat) {
    && start <= f.decided <= end
    && AreProbes(engines, f.waiting, start, f.decided) && AreProbes(engines, f.after, f.decided, end)
    && (forall e :: e in engines && Outlasts(p, f, e) ==>
          f.decided >= start + timeout && Probe(e.pid, f.decided) in f.waiting && !p.gone(e.pid, f.decided))
    && (forall v :: v in f.kills <==>
          exists e :: e in engines && Outlasts(p, f, e) && p.runsEngine(e.pid, f.decided) && v == Kill(e.pid, f.decided))
    && (forall e :: e in engines && Kill(e.pid, f.decided) in f.kills ==>
          f.decided + ENGINE_KILL_GRACE <= end || SeenGone(p, f.after, e.pid))
    && end < start + timeout + ENGINE_KILL_GRACE + 2 * TEARDOWN_POLL_INTERVAL
  }

  /** So each engine has exactly one fate: seen gone in time; killed and then seen gone or
      given its grace; or left alone, because it did not provably run the engine. */
  lemma EveryEngineIsAccounted(p: Processes, engines: seq<SignalledEngine>, start: nat, timeout: nat, f: Finish, end: nat,
                               e: SignalledEngine)
    requires IsFinish(p, engines, start, timeout, f, end) && e in engines
    ensures
      var (seen, killed) := (SeenGone(p, f.waiting, e.pid), Kill(e.pid, f.decided) in f.kills);
      && !(seen && killed)
      && (killed ==> p.runsEngine(e.pid, f.decided)
                     && (f.decided + ENGINE_KILL_GRACE <= end || SeenGone(p, f.after, e.pid)))
      && (!seen && !killed ==> !p.runsEngine(e.pid, f.decided) && !p.gone(e.pid, f.decided))
  {
  }

  /** And a pid is killed only when it was signalled, is alive, and runs the engine. */
  lemma OnlyEnginesAreKilled(p: Processes, engines: seq<SignalledEngine>, start: nat, timeout: nat, f: Finish, end: nat,
                             pid: int, t: nat)
    requires IsFinish(p, engines, start, timeout, f, end) && Kill(pid, t) in EventsOf(f)
    ensures t == f.decided >= start + timeout && p.runsEngine(pid, t) && !p.gone(pid, t)
    ensures exists e :: e in engines && e.pid == pid
  {
    assert Kill(pid, t) in f.kills;
  }

  class Service {
    const processes: Processes
    var now: nat
    var log: seq<Event>
    var record: NextBoot

    constructor (processes: Processes, now: nat, record: NextBoot)
      ensures this.processes == processes && this.now == now && log == [] && this.record == record
    {
      this.processes, this.now, this.record := processes, now, record;
      log := [];
    }

    /** Poll every engine until none is left or the time is up. The answer is those
        never seen gone. */
    method WaitForEngines(engines: seq<SignalledEngine>, timeout: nat)
      returns (left: seq<SignalledEngine>, ghost probes: seq<Event>)
      modifies this`now, this`log
      ensures old(now) <= now && log == old(log) + probes
      ensures WaitedOut(processes, engines, old(now), timeout, probes, left, now)
    {
      hide IsLeft, AreProbes, WaitedOut, SeenGone;
      var deadline := now + timeout;
      left, probes := engines, [];
      NothingSeen(processes, engines, now);
      while true
        invariant old(now) <= now && (now == old(now) || now < deadline + TEARDOWN_POLL_INTERVAL)
        invariant log == old(log) + probes && AreProbes(engines, probes, old(now), now)
        invariant IsLeft(processes, engines, probes, left)
        decreases deadline + TEARDOWN_POLL_INTERVAL - now
      {
        OnePass(processes, engines, probes, left, now);
        ProbesGrow(processes, engines, probes, left, old(now), now);
        var pass := ProbesOf(left, now);
        Associate(old(log), probes, pass);
        log, probes := log + pass, probes + pass;
        left := StillThere(processes, left, now);
        if left == [] {
          WaitEnds(processes, engines, old(now), timeout, probes, left, now);
          return;
        }
        if now >= deadline {
          WaitEnds(processes, engines, old(now), timeout, probes, left, now);
          return;
        }
        ProbesKeep(engines, probes, old(now), now, now + TEARDOWN_POLL_INTERVAL);
        now := now + TEARDOWN_POLL_INTERVAL;
      }
    }

    /** Kill those that still run the engine. */
    method KillEngines(left: seq<SignalledEngine>) returns (killed: seq<SignalledEngine>)
      modifies this`log
      ensures forall e :: e in killed <==> e in left && processes.runsEngine(e.pid, now)
      ensures log == old(log) + KillsOf(killed, now)
    {
      killed := [];
      for i := 0 to |left|
        invariant forall e :: e in killed <==> e in left[..i] && processes.runsEngine(e.pid, now)
        invariant log == old(log) + KillsOf(killed, now)
      {
        var e := left[i];
        assert left[..i + 1] == left[..i] + [e];
        if !processes.runsEngine(e.pid, now) {
          continue;
        }
        assert KillsOf(killed + [e], now) == KillsOf(killed, now) + [Kill(e.pid, now)];
        log, killed := log + [Kill(e.pid, now)], killed + [e];
      }
      assert left[..|left|] == left;
    }

    /** Wait the engines out, kill those that are left and still run the engine, and wait
        those out for the grace. */
    method FinishStopping(engines: seq<SignalledEngine>, timeout: nat) returns (ghost f: Finish)
      modifies this`now, this`log
      ensures log == old(log) + EventsOf(f)
      ensures IsFinish(processes, engines, old(now), timeout, f, now)
    {
      hide WaitedOut, IsFinish;
      var left;
      ghost var waiting, after, decided;
      left, waiting := WaitForEngines(engines, timeout);
      decided := now;
      var killed := KillEngines(left);
      var survivors;
      survivors, after := WaitForEngines(killed, ENGINE_KILL_GRACE);
      f := Finish(waiting, decided, KillsOf(killed, decided), after);
      assert log == old(log) + (waiting + KillsOf(killed, decided) + after);
      FinishIsRight(processes, engines, old(now), timeout, f, now, left, killed, survivors);
    }

    /** Signal the engines of one workspace that answer and are not provably another
        program. The answer is those, when the workspace's name can be read. */
    method StopEnginesOf(w: Workspace) returns (stopped: seq<SignalledEngine>)
      modifies this`log
      ensures stopped == StoppedIn(processes, w, PidsOf(w), now)
      ensures log == old(log) + SignalsIn(processes, PidsOf(w), now)
    {
      hide GetsSignal, PidsOf, StoppedIn, SignalsIn;
      stopped := [];
      var pids := PidsOf(w);
      NothingStopped(processes, w, now);
      for k := 0 to |pids|
        invariant stopped == StoppedIn(processes, w, pids[..k], now)
        invariant log == old(log) + SignalsIn(processes, pids[..k], now)
      {
        StoppedInAppend(processes, w, pids[..k], pids[k], now);
        assert pids[..k + 1] == pids[..k] + [pids[k]];
        if GetsSignal(processes, pids[k], now) {
          log := log + [Signal(pids[k], now)];
          if w.name.Some? {
            stopped := stopped + [SignalledEngine(w.name.value, pids[k])];
          }
        }
      }
      assert pids[..|pids|] == pids;
    }

    method StopWorkspaceEngines(ws: seq<Workspace>) returns (stopped: seq<SignalledEngine>)
      modifies this`log
      ensures stopped == Stopped(processes, ws, now)
      ensures log == old(log) + Signals(processes, ws, now)
    {
      hide GetsSignal, PidsOf, StoppedIn, SignalsIn;
      stopped := [];
      for i := 0 to |ws|
        invariant stopped == Stopped(processes, ws[..i], now)
        invariant log == old(log) + Signals(processes, ws[..i], now)
      {
        assert ws[..i + 1][..i] == ws[..i];
        var more := StopEnginesOf(ws[i]);
        stopped := stopped + more;
      }
      assert ws[..|ws|] == ws;
    }

    /** The teardown from the gateway's stop to the database's. `before` is how long
        the work up to the engine wait takes. */
    method Shutdown(ws: seq<Workspace>, before: nat) returns (ghost f: Finish)
      requires NamesDiffer(ws)
      modifies this
      ensures IsTeardown(processes, ws, old(now), before, old(record), old(log), f, now, record, log)
    {
      var started := now;
      now := now + before;
      var engines := StopWorkspaceEngines(ws);
      record := RecordAfter(record, Dedup(Ids(engines)));
      f := FinishStopping(engines, EngineExitWait(now - started));
      log := log + [StopPostgres(now)];
    }
  }

  /** A whole teardown from `start` on: the signals, the record, the end of every engine that
      was recorded, and then, last of all, the database's stop. */
  ghost predicate IsTeardown(p: Processes, ws: seq<Workspace>, start: nat, before: nat, record: NextBoot, log: seq<Event>,
                             f: Finish, end: nat, record': NextBoot, log': seq<Event>) {
    var engines := Stopped(p, ws, start + before);
    && log' == log + Signals(p, ws, start + before) + EventsOf(f) + [StopPostgres(end)]
    && IsFinish(p, engines, start + before, EngineExitWait(before), f, end)
    && record' == RecordAfter(record, Dedup(Ids(engines)))
  }

  function SignalsIn(p: Processes, pids: seq<int>, now: nat): seq<Event> {
    if pids == [] then []
    else SignalsIn(p, pids[..|pids| - 1], now)
         + if GetsSignal(p, pids[|pids| - 1], now) then [Signal(pids[|pids| - 1], now)] else []
  }

  function Signals(p: Processes, ws: seq<Workspace>, now: nat): seq<Event> {
    if ws == [] then []
    else Signals(p, ws[..|ws| - 1], now) + SignalsIn(p, PidsOf(ws[|ws| - 1]), now)
  }

  lemma NothingStopped(p: Processes, w: Workspace, now: nat)
    ensures StoppedIn(p, w, [], now) == [] && SignalsIn(p, [], now) == []
  {
  }

  lemma {:induction false} StoppedInAppend(p: Processes, w: Workspace, pids: seq<int>, pid: int, now: nat)
    ensures StoppedIn(p, w, pids + [pid], now)
         == StoppedIn(p, w, pids, now)
            + if w.name.Some? && GetsSignal(p, pid, now) then [SignalledEngine(w.name.value, pid)] else []
    ensures SignalsIn(p, pids + [pid], now)
         == SignalsIn(p, pids, now) + if GetsSignal(p, pid, now) then [Signal(pid, now)] else []
    decreases |pids|
  {
    hide GetsSignal;
    assert (pids + [pid])[..|pids|] == pids;
    if pids == [] {
      assert (pids + [pid])[1..] == [];
    } else {
      assert (pids + [pid])[1..] == pids[1..] + [pid];
      StoppedInAppend(p, w, pids[1..], pid, now);
    }
  }

  /** A pid is signalled iff a workspace's lock holder or its waiting successor has it, it
      answers, and it is not provably another program; whether the workspace's name can be
      read does not matter. */
  lemma SignalledExactly(p: Processes, ws: seq<Workspace>, now: nat, v: Event)
    ensures v in Signals(p, ws, now) <==>
      v.Signal? && v.at == now && p.answers(v.pid, now) && !p.runsAnother(v.pid, now)
      && exists i :: 0 <= i < |ws| && (ws[i].owner == Some(v.pid) || ws[i].waiting == Some(v.pid))
  {
    SignalsAre(p, ws, now, v);
    if v.Signal? {
      PidsAre(ws, v.pid);
    }
  }

  lemma PidsAre(ws: seq<Workspace>, pid: int)
    ensures (exists i :: 0 <= i < |ws| && pid in PidsOf(ws[i]))
        <==> exists i :: 0 <= i < |ws| && (ws[i].owner == Some(pid) || ws[i].waiting == Some(pid))
  {
  }

  lemma {:induction false} SignalsAre(p: Processes, ws: seq<Workspace>, now: nat, v: Event)
    ensures v in Signals(p, ws, now) <==>
      v.Signal? && v.at == now && GetsSignal(p, v.pid, now) && exists i :: 0 <= i < |ws| && v.pid in PidsOf(ws[i])
    decreases |ws|
  {
    hide GetsSignal, PidsOf;
    if ws != [] {
      var init, last := ws[..|ws| - 1], ws[|ws| - 1];
      SignalsAre(p, init, now, v);
      SignalsInMembers(p, PidsOf(last), now, v);
      assert forall i :: 0 <= i < |init| ==> init[i] == ws[i];
    }
  }

  lemma {:induction false} SignalsInMembers(p: Processes, pids: seq<int>, now: nat, v: Event)
    ensures v in SignalsIn(p, pids, now) <==> v.Signal? && v.at == now && GetsSignal(p, v.pid, now) && v.pid in pids
    decreases |pids|
  {
    hide GetsSignal;
    if pids != [] {
      SignalsInMembers(p, pids[..|pids| - 1], now, v);
      assert pids == pids[..|pids| - 1] + [pids[|pids| - 1]];
    }
  }

  /** The engine's fate by the time the database is stopped: seen gone, or killed and given its
      grace, or not provably the engine when the whole wait was over. */
  ghost predicate IsAccounted(p: Processes, start: nat, timeout: nat, f: Finish, end: nat, pid: int) {
    || SeenGone(p, EventsOf(f), pid)
    || (Kill(pid, f.decided) in f.kills && p.runsEngine(pid, f.decided) && f.decided + 1000 <= end)
    || (!p.runsEngine(pid, f.decided) && !p.gone(pid, f.decided) && f.decided >= start + timeout)
  }

  /** The database's stop is the last thing a teardown does, and the only such stop. By then
      each engine that was recorded is accounted for. */
  lemma DatabaseStopsLast(p: Processes, ws: seq<Workspace>, start: nat, before: nat, record: NextBoot, log: seq<Event>,
                          f: Finish, end: nat, record': NextBoot, log': seq<Event>)
    requires IsTeardown(p, ws, start, before, record, log, f, end, record', log')
    ensures
      var earlier := Signals(p, ws, start + before) + EventsOf(f);
      && log' == log + earlier + [StopPostgres(end)]
      && forall v :: v in earlier ==> !v.StopPostgres? && start <= v.at <= end
    ensures forall e :: e in Stopped(p, ws, start + before) ==>
              IsAccounted(p, start + before, EngineExitWait(before), f, end, e.pid)
  {
    hide Stopped, Signals, SeenGone, EngineExitWait, RecordAfter, Dedup;
    var engines, signals := Stopped(p, ws, start + before), Signals(p, ws, start + before);
    assert log' == log + (signals + EventsOf(f)) + [StopPostgres(end)];
    forall v | v in signals + EventsOf(f) ensures !v.StopPostgres? && start <= v.at <= end {
      SignalledExactly(p, ws, start + before, v);
    }
    forall e | e in engines ensures IsAccounted(p, start + before, EngineExitWait(before), f, end, e.pid) {
      EveryEngineIsAccounted(p, engines, start + before, EngineExitWait(before), f, end, e);
      SeenInMore(p, f.waiting, EventsOf(f), e.pid);
      SeenInMore(p, f.after, EventsOf(f), e.pid);
    }
  }

  lemma SeenInMore(p: Processes, some: seq<Event>, all: seq<Event>, pid: int)
    requires forall v :: v in some ==> v in all
    ensures SeenGone(p, some, pid) ==> SeenGone(p, all, pid)
  {
  }

  /** Some workspace that names the pid has a name that can be read. */
  ghost predicate NamedReadably(ws: seq<Workspace>, pid: int) {
    exists i :: 0 <= i < |ws| && ws[i].name.Some? && pid in PidsOf(ws[i])
  }

  ghost predicate IsProbed(f: Finish, pid: int) {
    exists t :: Probe(pid, t) in EventsOf(f)
  }

  /** A pid that was signalled is waited for exactly when a workspace that names it has a name
      that can be read. Then it is accounted for before the database stops; otherwise nobody
      asks after it, and it is not killed. */
  lemma SignalledIsWaitedForExactly(p: Processes, ws: seq<Workspace>, start: nat, before: nat, record: NextBoot,
                                    log: seq<Event>, f: Finish, end: nat, record': NextBoot, log': seq<Event>, v: Event)
    requires IsTeardown(p, ws, start, before, record, log, f, end, record', log')
    requires v in Signals(p, ws, start + before)
    ensures v.Signal? && (IsProbed(f, v.pid) <==> NamedReadably(ws, v.pid))
    ensures NamedReadably(ws, v.pid) ==> IsAccounted(p, start + before, EngineExitWait(before), f, end, v.pid)
    ensures !NamedReadably(ws, v.pid) ==> forall t :: Kill(v.pid, t) !in EventsOf(f)
  {
    hide Stopped, Signals, EngineExitWait, RecordAfter, Dedup, IsAccounted, PidsOf, GetsSignal, IsFinish, NamedReadably,
         IsProbed, EventsOf;
    var now := start + before;
    var engines := Stopped(p, ws, now);
    SignalsAre(p, ws, now, v);
    StoppedReadably(p, ws, now, v.pid);
    DatabaseStopsLast(p, ws, start, before, record, log, f, end, record', log');
    if NamedReadably(ws, v.pid) {
      var e :| e in engines && e.pid == v.pid;
      EngineIsProbed(p, engines, now, EngineExitWait(before), f, end, e);
    } else {
      assert forall e :: e in engines ==> e.pid != v.pid;
      OnlyEnginesAreTouched(p, engines, now, EngineExitWait(before), f, end, v.pid);
    }
  }

  lemma StoppedReadably(p: Processes, ws: seq<Workspace>, now: nat, pid: int)
    requires GetsSignal(p, pid, now)
    ensures NamedReadably(ws, pid) <==> exists e :: e in Stopped(p, ws, now) && e.pid == pid
  {
    hide Stopped, PidsOf, GetsSignal;
    StoppedAreSignalled(p, ws, now);
    if NamedReadably(ws, pid) {
      var i :| 0 <= i < |ws| && ws[i].name.Some? && pid in PidsOf(ws[i]);
      var e := SignalledEngine(ws[i].name.value, pid);
      assert ws[i].name == Some(e.id);
      assert e in Stopped(p, ws, now);
    }
  }

  lemma EngineIsProbed(p: Processes, engines: seq<SignalledEngine>, start: nat, timeout: nat, f: Finish, end: nat,
                       e: SignalledEngine)
    requires IsFinish(p, engines, start, timeout, f, end) && e in engines
    ensures IsProbed(f, e.pid)
  {
    if Outlasts(p, f, e) {
      assert Probe(e.pid, f.decided) in EventsOf(f);
    } else {
      var t :| Probe(e.pid, t) in f.waiting && p.gone(e.pid, t);
      assert Probe(e.pid, t) in EventsOf(f);
    }
  }

  lemma OnlyEnginesAreTouched(p: Processes, engines: seq<SignalledEngine>, start: nat, timeout: nat, f: Finish, end: nat,
                              pid: int)
    requires IsFinish(p, engines, start, timeout, f, end) && forall e :: e in engines ==> e.pid != pid
    ensures !IsProbed(f, pid) && forall t :: Kill(pid, t) !in EventsOf(f)
  {
    hide SeenGone;
    forall v | v in EventsOf(f) ensures exists e :: e in engines && (v == Probe(e.pid, v.at) || v == Kill(e.pid, v.at)) {
      assert v in f.waiting || v in f.kills || v in f.after;
    }
  }

  /** So the database may stop under a running engine: one whose workspace's name cannot be
      read gets its signal, and the database is stopped at the same moment. */
  lemma UnreadableIsLeftRunning(p: Processes, pid: int, start: nat, before: nat, log: seq<Event>)
    requires GetsSignal(p, pid, start + before) && p.runsEngine(pid, start + before) && !p.gone(pid, start + before)
    ensures
      var (ws, now) := ([Workspace(None, Some(pid), None)], start + before);
      && NamesDiffer(ws)
      && IsTeardown(p, ws, start, before, Absent, log, Finish([], now, [], []), now, Absent,
                    log + [Signal(pid, now), StopPostgres(now)])
  {
    var ws, now := [Workspace(None, Some(pid), None)], start + before;
    assert ws[..0] == [] && PidsOf(ws[0]) == [pid] && [pid][..0] == [];
    assert Stopped(p, ws, now) == [];
    assert SignalsIn(p, [pid], now) == [Signal(pid, now)];
    assert Signals(p, ws, now) == [Signal(pid, now)];
    assert Ids([]) == [];
  }

  /** The engines have the whole budget: none is killed before 17 seconds of the teardown are
      over, however its work before the wait went. */
  lemma KilledOnlyAfterTheBudget(p: Processes, ws: seq<Workspace>, start: nat, before: nat, record: NextBoot,
                                 log: seq<Event>, f: Finish, end: nat, record': NextBoot, log': seq<Event>, pid: int, t: nat)
    requires IsTeardown(p, ws, start, before, record, log, f, end, record', log') && Kill(pid, t) in EventsOf(f)
    ensures t >= start + 17000 && t >= start + before && p.runsEngine(pid, t)
  {
    hide Stopped, Signals, RecordAfter, Dedup, IsFinish;
    OnlyEnginesAreKilled(p, Stopped(p, ws, start + before), start + before, EngineExitWait(before), f, end, pid, t);
  }

  lemma ProbedAtTheEnd(p: Processes, probes: seq<Event>, pid: int, end: nat)
    requires Probe(pid, end) in probes && !SeenGone(p, probes, pid)
    ensures !p.gone(pid, end)
  {
  }

  lemma FinishIsRight(p: Processes, engines: seq<SignalledEngine>, start: nat, timeout: nat, f: Finish, end: nat,
                      left: seq<SignalledEngine>, killed: seq<SignalledEngine>, survivors: seq<SignalledEngine>)
    requires start <= f.decided <= end
    requires WaitedOut(p, engines, start, timeout, f.waiting, left, f.decided)
    requires forall e :: e in killed <==> e in left && p.runsEngine(e.pid, f.decided)
    requires f.kills == KillsOf(killed, f.decided)
    requires WaitedOut(p, killed, f.decided, ENGINE_KILL_GRACE, f.after, survivors, end)
    ensures IsFinish(p, engines, start, timeout, f, end)
  {
    hide AreProbes, SeenGone;
    ProbesOfMore(killed, engines, f.after, f.decided, end);
    forall e | e in left ensures !p.gone(e.pid, f.decided) {
      ProbedAtTheEnd(p, f.waiting, e.pid, f.decided);
    }
    forall e | e in engines && Outlasts(p, f, e)
      ensures f.decided >= start + timeout && Probe(e.pid, f.decided) in f.waiting && !p.gone(e.pid, f.decided)
    {
      assert e in left;
    }
    forall v | v in f.kills
      ensures exists e :: e in engines && Outlasts(p, f, e) && p.runsEngine(e.pid, f.decided) && v == Kill(e.pid, f.decided)
    {
      var i :| 0 <= i < |killed| && v == KillsOf(killed, f.decided)[i];
      assert killed[i] in killed;
    }
    forall e | e in engines && Outlasts(p, f, e) && p.runsEngine(e.pid, f.decided)
      ensures Kill(e.pid, f.decided) in f.kills
    {
      assert e in killed;
      var i :| 0 <= i < |killed| && killed[i] == e;
      assert KillsOf(killed, f.decided)[i] == Kill(e.pid, f.decided);
    }
    forall e | e in engines && Kill(e.pid, f.decided) in f.kills
      ensures f.decided + ENGINE_KILL_GRACE <= end || SeenGone(p, f.after, e.pid)
    {
      var i :| 0 <= i < |killed| && KillsOf(killed, f.decided)[i] == Kill(e.pid, f.decided);
      assert killed[i] in killed && killed[i].pid == e.pid;
    }
  }

  /** When the work before the engine wait takes at most 17 seconds, Postgres is told
      to stop less than 18.9 seconds after the SIGTERM, the supervise loop's half
      second included, and so before launchd's 20. */
  lemma PostgresStopsInTime(noticed: nat, before: nat, postgresStop: nat)
    requires noticed <= SUPERVISE_POLL
    requires before <= LAUNCHD_EXIT_TIMEOUT - SERVICE_TEARDOWN_ALLOWANCE
    requires postgresStop < noticed + before + EngineExitWait(before) + ENGINE_KILL_GRACE + 2 * TEARDOWN_POLL_INTERVAL
    ensures postgresStop < 18900 < LAUNCHD_EXIT_TIMEOUT
  {
  }

  /** The supervise loop, polled every half second from `start` on: when it sees the
      stop that was asked for at `asked`. */
  method NoticeStop(start: nat, asked: nat) returns (seen: nat)
    requires start <= asked
    ensures asked <= seen < asked + SUPERVISE_POLL
  {
    seen := start;
    while seen < asked
      invariant start <= seen < asked + SUPERVISE_POLL
      decreases asked + SUPERVISE_POLL - seen
    {
      seen := seen + SUPERVISE_POLL;
    }
  }

  /** A SIGTERM that reaches the supervise loop, followed to the database's stop. */
  method StopOnSigterm(service: Service, ws: seq<Workspace>, sigterm: nat, before: nat)
    returns (ghost seen: nat, ghost f: Finish)
    requires NamesDiffer(ws) && service.now <= sigterm
    requires before <= LAUNCHD_EXIT_TIMEOUT - SERVICE_TEARDOWN_ALLOWANCE
    modifies service
    ensures sigterm <= seen < sigterm + SUPERVISE_POLL
    ensures IsTeardown(service.processes, ws, seen, before, old(service.record), old(service.log), f, service.now,
              service.record, service.log)
    ensures service.now < sigterm + 18900
    ensures old(service.record).Quit? ==> service.record == Quit
  {
    var noticed := NoticeStop(service.now, sigterm);
    service.now := noticed;
    seen := noticed;
    f := service.Shutdown(ws, before);
    PostgresStopsInTime(seen - sigterm, before, service.now - sigterm);
  }
}
