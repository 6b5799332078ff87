/** The per-window crash watchdog of crates/lucidos-app/src/crash_watchdog.rs. Times
    are seconds on the monotonic clock. */
module CrashWatchdog {
  import opened Wrappers

  type Label = string

  /** When a page last beat, or had its clock restarted, and how often it has beaten. */
  datatype Beat = Beat(at: real, count: nat)

  /** The state machine of one window: the count at the last reload, and the
      reloads since that brought no heartbeat. */
  datatype Watchdog = Watchdog(atLastReload: Option<nat>, futileReloads: nat)

  datatype Verdict = Parked | Watching | Reload(futile: bool, nextThreshold: real)

  const HEARTBEAT_TIMEOUT := 60.0
  const MAX_BACKOFF_DOUBLINGS := 5
  const U32_MAX := 0xFFFF_FFFF

  const FRESH := Watchdog(None, 0)

  function Pow2(n: nat): (r: real)
    ensures r >= 1.0
  {
    if n == 0 then 1.0 else 2.0 * Pow2(n - 1)
  }

  function ReloadThreshold(futile: nat): (r: real)
    ensures r >= HEARTBEAT_TIMEOUT
  {
    HEARTBEAT_TIMEOUT * Pow2(if futile < MAX_BACKOFF_DOUBLINGS then futile else MAX_BACKOFF_DOUBLINGS)
  }

  function SaturatingIncrement(n: nat): nat {
    if n >= U32_MAX then U32_MAX else n + 1
  }

  /** One tick for one window: the verdict, and the state machine after it. */
  function OnTick(w: Watchdog, onScreen: bool, silentFor: real, heartbeats: nat): (Verdict, Watchdog) {
    if !onScreen then (Parked, FRESH)
    else if silentFor <= ReloadThreshold(w.futileReloads) then (Watching, w)
    else
      var futile := w.atLastReload == Some(heartbeats);
      var reloads := if futile then SaturatingIncrement(w.futileReloads) else 0;
      (Reload(futile, ReloadThreshold(reloads)), Watchdog(Some(heartbeats), reloads))
  }

  // ---- One window on its own ----

  /** What is known of one window: its clock, and its state machine. */
  datatype Single = Single(beat: Option<Beat>, dog: Option<Watchdog>)

  datatype SingleEvent =
    | Beats(now: real)
    | Judged(onScreen: bool, now: real)
    | ClockReset(now: real)
    | DogDropped
    | BeatForgotten

  function Seen(beat: Option<Beat>, now: real): Beat {
    if beat.Some? then beat.value else Beat(now, 0)
  }

  function StepSingle(s: Single, e: SingleEvent): (Single, Option<Verdict>) {
    match e
    case Beats(now) => (s.(beat := Some(Beat(now, Seen(s.beat, now).count + 1))), None)
    case Judged(onScreen, now) =>
      var beat := Seen(s.beat, now);
      var dog := if s.dog.Some? then s.dog.value else FRESH;
      var (verdict, next) := OnTick(dog, onScreen, now - beat.at, beat.count);
      (Single(Some(beat), Some(next)), Some(verdict))
    case ClockReset(now) => (if s.beat.Some? then s.(beat := Some(s.beat.value.(at := now))) else s, None)
    case DogDropped => (s.(dog := None), None)
    case BeatForgotten => (s.(beat := None), None)
  }

  // ---- All windows over shared maps ----

  datatype Shared = Shared(beats: map<Label, Beat>, dogs: map<Label, Watchdog>)

  /** The steps of the heartbeat command and of the tick, each under the lock. */
  datatype Event =
    | Record(page: Label, now: real)
    | Judge(page: Label, onScreen: bool, now: real)
    | ResetClock(page: Label, now: real)
    | RetainDogs(live: set<Label>)
    | Forget(page: Label)

  function Lookup<V>(m: map<Label, V>, page: Label): Option<V> {
    if page in m then Some(m[page]) else None
  }

  function Step(s: Shared, e: Event): (Shared, Option<Verdict>) {
    match e
    case Record(l, now) => (s.(beats := s.beats[l := Beat(now, Seen(Lookup(s.beats, l), now).count + 1)]), None)
    case Judge(l, onScreen, now) =>
      var beat := Seen(Lookup(s.beats, l), now);
      var dog := if l in s.dogs then s.dogs[l] else FRESH;
      var (verdict, next) := OnTick(dog, onScreen, now - beat.at, beat.count);
      (Shared(s.beats[l := beat], s.dogs[l := next]), Some(verdict))
    case ResetClock(l, now) =>
      (if l in s.beats then s.(beats := s.beats[l := s.beats[l].(at := now)]) else s, None)
    case RetainDogs(live) => (s.(dogs := map l | l in s.dogs && l in live :: s.dogs[l]), None)
    case Forget(l) => (s.(beats := s.beats - {l}), None)
  }

  function Run(s: Shared, events: seq<Event>): Shared
    decreases |events|
  {
    if events == [] then s else Run(Step(s, events[0]).0, events[1..])
  }

  /** The verdicts the shared watchdog gives one page, in order. */
  function VerdictsFor(s: Shared, events: seq<Event>, page: Label): seq<Verdict>
    decreases |events|
  {
    if events == [] then []
    else
      var e := events[0];
      var (next, verdict) := Step(s, e);
      (if e.Judge? && e.page == page && verdict.Some? then [verdict.value] else [])
      + VerdictsFor(next, events[1..], page)
  }

  function SingleVerdicts(s: Single, events: seq<SingleEvent>): seq<Verdict>
    decreases |events|
  {
    if events == [] then []
    else
      var (next, verdict) := StepSingle(s, events[0]);
      (if verdict.Some? then [verdict.value] else []) + SingleVerdicts(next, events[1..])
  }

  function Project(s: Shared, page: Label): Single {
    Single(Lookup(s.beats, page), Lookup(s.dogs, page))
  }

  /** What an event means to one page, when it means anything. */
  function ForLabel(e: Event, page: Label): Option<SingleEvent> {
    match e
    case Record(l, now) => if l == page then Some(Beats(now)) else None
    case Judge(l, onScreen, now) => if l == page then Some(Judged(onScreen, now)) else None
    case ResetClock(l, now) => if l == page then Some(ClockReset(now)) else None
    case RetainDogs(live) => if page in live then None else Some(DogDropped)
    case Forget(l) => if l == page then Some(BeatForgotten) else None
  }

  function Only(events: seq<Event>, page: Label): seq<SingleEvent> {
    if events == [] then []
    else
      var e := ForLabel(events[0], page);
      (if e.Some? then [e.value] else []) + Only(events[1..], page)
  }

  lemma StepProjects(s: Shared, e: Event, page: Label)
    ensures
      var (next, verdict) := Step(s, e);
      match ForLabel(e, page)
      case None => Project(next, page) == Project(s, page) && !(e.Judge? && e.page == page)
      case Some(one) =>
        && Project(next, page) == StepSingle(Project(s, page), one).0
        && (if e.Judge? then verdict.Some? && verdict == StepSingle(Project(s, page), one).1
            else StepSingle(Project(s, page), one).1.None?)
  {
  }

  /** Non-interference: whatever the other windows do, in any interleaving, one
      page gets the verdicts it would get alone. */
  lemma {:induction false} WindowsDoNotInterfere(s: Shared, events: seq<Event>, page: Label)
    ensures VerdictsFor(s, events, page) == SingleVerdicts(Project(s, page), Only(events, page))
    decreases |events|
  {
    if events != [] {
      var e := events[0];
      StepProjects(s, e, page);
      WindowsDoNotInterfere(Step(s, e).0, events[1..], page);
      var one := ForLabel(e, page);
      var rest := Only(events[1..], page);
      if one.Some? {
        assert ([one.value] + rest)[1..] == rest;
      } else {
        assert Only(events, page) == rest;
      }
    }
  }

  // ---- When a reload may come ----

  function TimeOf(e: SingleEvent, otherwise: real): real {
    match e
    case Beats(now) => now
    case Judged(_, now) => now
    case ClockReset(now) => now
    case _ => otherwise
  }

  /** The clock the events carry never runs back past `from`. */
  ghost predicate ClockAscends(events: seq<SingleEvent>, from: real) {
    if events == [] then true
    else from <= TimeOf(events[0], from) && ClockAscends(events[1..], TimeOf(events[0], from))
  }

  function RunSingle(s: Single, events: seq<SingleEvent>): Single
    decreases |events|
  {
    if events == [] then s else RunSingle(StepSingle(s, events[0]).0, events[1..])
  }

  /** Once a window's clock was set at `quiet` or later, no reload comes within the
      heartbeat timeout of `quiet`. */
  lemma {:induction false} NoReloadWithinTimeout(s: Single, events: seq<SingleEvent>, quiet: real, from: real, k: nat)
    requires s.beat.Some? ==> quiet <= s.beat.value.at
    requires quiet <= from && ClockAscends(events, from) && k < |events| && events[k].Judged?
    requires
      var verdict := StepSingle(RunSingle(s, events[..k]), events[k]).1;
      verdict.Some? && verdict.value.Reload?
    ensures events[k].now > quiet + HEARTBEAT_TIMEOUT
    decreases k
  {
    if k > 0 {
      var next := StepSingle(s, events[0]).0;
      assert events[..k][0] == events[0] && events[..k][1..] == events[1..][..k - 1];
      NoReloadWithinTimeout(next, events[1..], quiet, TimeOf(events[0], from), k - 1);
    } else {
      assert events[..k] == [];
    }
  }

  /** What the tick makes of a window: judge it, and restart its clock unless it is
      merely being watched. */
  function Look(s: Single, onScreen: bool, readAt: real, resetAt: real): (Verdict, Single) {
    var (judged, verdict) := StepSingle(s, Judged(onScreen, readAt));
    if verdict.value == Watching then (Watching, judged)
    else (verdict.value, StepSingle(judged, ClockReset(resetAt)).0)
  }

  /** A parked window is never reloaded, its backoff is forgotten, and after the
      park the next reload is more than the timeout away, whatever else happens. */
  lemma ParkGivesAFreshStart(s: Single, readAt: real, resetAt: real, events: seq<SingleEvent>, k: nat)
    requires ClockAscends(events, resetAt) && k < |events| && events[k].Judged?
    ensures Look(s, false, readAt, resetAt).0 == Parked && Look(s, false, readAt, resetAt).1.dog == Some(FRESH)
    ensures
      var verdict := StepSingle(RunSingle(Look(s, false, readAt, resetAt).1, events[..k]), events[k]).1;
      verdict.Some? && verdict.value.Reload? ==> events[k].now > resetAt + HEARTBEAT_TIMEOUT
  {
    var after := Look(s, false, readAt, resetAt).1;
    var verdict := StepSingle(RunSingle(after, events[..k]), events[k]).1;
    if verdict.Some? && verdict.value.Reload? {
      NoReloadWithinTimeout(after, events, resetAt, resetAt, k);
    }
  }

  // ---- A window that never beats ----

  /** One look at an on-screen window: when it was read, and when its clock was
      restarted if it was reloaded. */
  datatype Glance = Glance(readAt: real, resetAt: real)

  ghost predicate GlancesAscend(glances: seq<Glance>, from: real) {
    if glances == [] then true
    else from <= glances[0].readAt <= glances[0].resetAt && GlancesAscend(glances[1..], glances[0].resetAt)
  }

  /** The times at which a silent on-screen window is reloaded. */
  function ReloadTimes(s: Single, glances: seq<Glance>): seq<real>
    decreases |glances|
  {
    if glances == [] then []
    else
      var g := glances[0];
      var (verdict, next) := Look(s, true, g.readAt, g.resetAt);
      (if verdict.Reload? then [g.readAt] else []) + ReloadTimes(next, glances[1..])
  }

  /** How long the first `n` reloads of a silent window take at least: after the
      first, each waits for its threshold once more. */
  function Waited(done: nat, n: nat): real
    decreases n
  {
    if n == 0 then 0.0 else ReloadThreshold(if done == 0 then 0 else done - 1) + Waited(done + 1, n - 1)
  }

  /** The state of a silent window after `done` reloads, its clock started at `at`. */
  ghost predicate SilentAfter(s: Single, done: nat, at: real) {
    && s.beat.Some? && s.beat.value.at == at
    && (if done == 0 then s.dog == None || s.dog == Some(FRESH)
        else
          && s.dog.Some? && s.dog.value.atLastReload == Some(s.beat.value.count)
          && s.dog.value.futileReloads == (if done - 1 < U32_MAX then done - 1 else U32_MAX))
  }

  lemma {:induction false} SilentReloadsWait(s: Single, glances: seq<Glance>, done: nat, at: real, n: nat)
    requires SilentAfter(s, done, at) && GlancesAscend(glances, at)
    requires 0 < n <= |ReloadTimes(s, glances)|
    ensures ReloadTimes(s, glances)[n - 1] - at > Waited(done, n)
    decreases |glances|
  {
    var g := glances[0];
    var (verdict, next) := Look(s, true, g.readAt, g.resetAt);
    hide Pow2;
    if verdict.Reload? {
      CappedThreshold(done);
      if n > 1 {
        SilentReloadsWait(next, glances[1..], done + 1, g.resetAt, n - 1);
      } else {
        assert Waited(done + 1, 0) == 0.0;
      }
    } else {
      GlancesAscendFrom(glances[1..], at, g.resetAt);
      SilentReloadsWait(next, glances[1..], done, at, n);
    }
  }

  lemma GlancesAscendFrom(glances: seq<Glance>, from: real, later: real)
    requires from <= later && GlancesAscend(glances, later)
    ensures GlancesAscend(glances, from)
  {
  }

  lemma CappedThreshold(done: nat)
    ensures ReloadThreshold(if done < U32_MAX then done else U32_MAX) == ReloadThreshold(done)
    ensures done > 0 ==> ReloadThreshold(if done - 1 < U32_MAX then done - 1 else U32_MAX) == ReloadThreshold(done - 1)
  {
  }

  lemma {:induction false} WaitedSteps(done: nat, n: nat)
    ensures Waited(done, n + 1) == Waited(done, n) + ReloadThreshold(if done + n == 0 then 0 else done + n - 1)
    decreases n
  {
    if n > 0 {
      WaitedSteps(done + 1, n - 1);
    } else {
      assert Waited(done + 1, 0) == 0.0;
    }
  }

  lemma {:induction false} WaitedIsClosedForm(n: nat)
    requires n > 0
    ensures Waited(0, n) == if n <= 7 then 60.0 * Pow2(n - 1) else 3840.0 + 1920.0 * (n - 7) as real
    decreases n
  {
    WaitedSteps(0, n - 1);
    if n == 1 {
      assert Waited(0, 0) == 0.0;
    } else {
      WaitedIsClosedForm(n - 1);
      PowersOfTwo();
      if n <= 7 {
        assert Pow2(n - 1) == 2.0 * Pow2(n - 2);
      }
    }
  }

  lemma PowersOfTwo()
    ensures Pow2(0) == 1.0 && Pow2(1) == 2.0 && Pow2(2) == 4.0 && Pow2(3) == 8.0 && Pow2(4) == 16.0
    ensures Pow2(5) == 32.0 && Pow2(6) == 64.0
  {
    assert Pow2(3) == 2.0 * Pow2(2) && Pow2(4) == 2.0 * Pow2(3) && Pow2(5) == 2.0 * Pow2(4) && Pow2(6) == 2.0 * Pow2(5);
  }

  /** The n-th reload of a window that stays on screen and never beats comes later
      than 60·2^(n-1) seconds after its clock started, up to the seventh, and from
      then on each takes 1920 seconds more. */
  lemma NthReloadOfASilentWindow(count: nat, dog: Option<Watchdog>, glances: seq<Glance>, at: real, n: nat)
    requires (dog == None || dog == Some(FRESH)) && GlancesAscend(glances, at)
    requires 0 < n <= |ReloadTimes(Single(Some(Beat(at, count)), dog), glances)|
    ensures ReloadTimes(Single(Some(Beat(at, count)), dog), glances)[n - 1] - at
          > if n <= 7 then 60.0 * Pow2(n - 1) else 3840.0 + 1920.0 * (n - 7) as real
  {
    SilentReloadsWait(Single(Some(Beat(at, count)), dog), glances, 0, at, n);
    WaitedIsClosedForm(n);
  }

  // ---- The verdict in numbers ----

  /** What a window's past says of its backoff: was it reloaded since its last park, has it
      beaten since the last reload, and how many reloads up to that one brought no beat. */
  datatype Past = Past(reloaded: bool, beaten: bool, futile: nat)

  function Remember(past: Past, e: SingleEvent, reload: bool): Past {
    match e
    case Beats(_) => past.(beaten := true)
    case Judged(onScreen, _) =>
      if !onScreen then Past(false, false, 0)
      else if !reload then past
      else Past(true, false, if past.reloaded && !past.beaten then past.futile + 1 else 0)
    case ClockReset(_) => past
    case DogDropped => Past(false, false, 0)
    case BeatForgotten => past
  }

  /** The past of a window that starts out with no watchdog, as its verdicts tell it. */
  function PastOf(s: Single, events: seq<SingleEvent>): Past
    decreases |events|
  {
    if events == [] then Past(false, false, 0)
    else
      var n := |events| - 1;
      var verdict := StepSingle(RunSingle(s, events[..n]), events[n]).1;
      Remember(PastOf(s, events[..n]), events[n], verdict.Some? && verdict.value.Reload?)
  }

  /** The watchdog knows just that. */
  ghost predicate Knows(s: Single, past: Past) {
    && (s.dog.None? ==> past == Past(false, false, 0) || past == Past(false, true, 0))
    && (s.dog.Some? ==>
          && s.dog.value.futileReloads == (if past.futile < U32_MAX then past.futile else U32_MAX)
          && (s.dog.value.atLastReload.Some? <==> past.reloaded)
          && (past.reloaded ==>
                && s.beat.Some? && s.dog.value.atLastReload.value <= s.beat.value.count
                && (past.beaten <==> s.dog.value.atLastReload.value < s.beat.value.count)))
    && (!past.reloaded ==> past.futile == 0)
  }

  /** A window is forgotten only once its watchdog is dropped, as the sweep does it. */
  ghost predicate ForgottenLast(s: Single, e: SingleEvent) {
    e.BeatForgotten? ==> s.dog.None?
  }

  lemma StepKnows(s: Single, e: SingleEvent, past: Past)
    requires Knows(s, past) && ForgottenLast(s, e)
    ensures
      var (next, verdict) := StepSingle(s, e);
      Knows(next, Remember(past, e, verdict.Some? && verdict.value.Reload?))
  {
  }

  lemma {:induction false} RunKnows(s: Single, events: seq<SingleEvent>)
    requires s.dog == None
    requires forall k :: 0 <= k < |events| ==> ForgottenLast(RunSingle(s, events[..k]), events[k])
    ensures Knows(RunSingle(s, events), PastOf(s, events))
    decreases |events|
  {
    if events != [] {
      var n := |events| - 1;
      var init := events[..n];
      forall k | 0 <= k < n ensures ForgottenLast(RunSingle(s, init[..k]), init[k]) {
        assert init[..k] == events[..k];
      }
      hide Knows, StepSingle, Remember, ForgottenLast;
      RunKnows(s, init);
      StepKnows(RunSingle(s, init), events[n], PastOf(s, init));
      RunOneMore(s, events);
    }
  }

  lemma {:induction false} RunOneMore(s: Single, events: seq<SingleEvent>)
    requires events != []
    ensures RunSingle(s, events) == StepSingle(RunSingle(s, events[..|events| - 1]), events[|events| - 1]).0
    decreases |events|
  {
    hide StepSingle;
    if |events| == 1 {
      assert events[..0] == [] && events[1..] == [];
    } else {
      var next := StepSingle(s, events[0]).0;
      RunOneMore(next, events[1..]);
      var init := events[..|events| - 1];
      assert events[1..][..|events| - 2] == init[1..];
    }
  }

  /** How long a window has been silent, when it was seen or heard of before. */
  function Silence(s: Single, now: real): real {
    if s.beat.Some? then now - s.beat.value.at else 0.0
  }

  /** Whatever happened before, a look reloads a window iff it is on screen and has been
      silent for more than 60·2^min(k, 5) seconds, k being the reloads up to the last one,
      since the last that followed a beat or a park, that brought no beat. And it calls the
      reload futile iff the one before it brought no beat either. */
  lemma VerdictIsExact(s: Single, events: seq<SingleEvent>, onScreen: bool, now: real)
    requires s.dog == None
    requires forall k :: 0 <= k < |events| ==> ForgottenLast(RunSingle(s, events[..k]), events[k])
    ensures
      var (before, past) := (RunSingle(s, events), PastOf(s, events));
      var verdict := StepSingle(before, Judged(onScreen, now)).1;
      var k := if past.futile < 5 then past.futile else 5;
      && verdict.Some?
      && (verdict.value.Parked? <==> !onScreen)
      && (verdict.value.Reload? <==> onScreen && Silence(before, now) > 60.0 * Pow2(k))
      && (verdict.value.Reload? ==>
            var futile := past.reloaded && !past.beaten;
            && verdict.value.futile == futile
            && verdict.value.nextThreshold == if futile then 60.0 * Pow2(if past.futile < 4 then past.futile + 1 else 5) else 60.0)
  {
    RunKnows(s, events);
    assert Pow2(0) == 1.0;
  }

  /** A page that beats after reloads that brought none does not get its fast recovery back
      at once: the next silence must still outlast the backoff those reloads earned. So it is
      caught as fast as on the first crash iff none of them was futile. */
  lemma BackoffOutlivesTheBeat(s: Single, events: seq<SingleEvent>, beat: real)
    requires s.dog == None
    requires forall k :: 0 <= k < |events| ==> ForgottenLast(RunSingle(s, events[..k]), events[k])
    ensures
      var after := RunSingle(s, events + [Beats(beat)]);
      var futile := PastOf(s, events).futile;
      && PastOf(s, events + [Beats(beat)]).futile == futile
      && ((forall now :: now > beat + HEARTBEAT_TIMEOUT ==> ReloadsAt(after, now)) <==> futile == 0)
  {
    var longer := events + [Beats(beat)];
    assert longer[..|events|] == events;
    forall k | 0 <= k < |longer| ensures ForgottenLast(RunSingle(s, longer[..k]), longer[k]) {
      if k < |events| {
        assert longer[..k] == events[..k];
      }
    }
    RunOneMore(s, longer);
    var after, futile := RunSingle(s, longer), PastOf(s, events).futile;
    forall now ensures ReloadsAt(after, now) <==> now - beat > 60.0 * Pow2(if futile < 5 then futile else 5) {
      VerdictIsExact(s, longer, true, now);
    }
    if futile > 0 {
      assert Pow2(if futile < 5 then futile else 5) >= 2.0;
      var now := beat + 61.0;
      assert !ReloadsAt(after, now);
    }
  }

  predicate ReloadsAt(s: Single, now: real) {
    var verdict := StepSingle(s, Judged(true, now)).1;
    verdict.Some? && verdict.value.Reload?
  }

  // ---- A reload does come ----

  /** The window is looked at again within `gap` of each look, and its clock restarts within
      `pause` of it. */
  ghost predicate LooksOften(glances: seq<Glance>, last: real, gap: real, pause: real) {
    if glances == [] then true
    else
      glances[0].readAt <= last + gap && glances[0].resetAt <= glances[0].readAt + pause
      && LooksOften(glances[1..], glances[0].readAt, gap, pause)
  }

  function Times(n: nat, x: real): real {
    if n == 0 then 0.0 else x + Times(n - 1, x)
  }

  lemma {:induction false} TimesIsProduct(n: nat, x: real)
    ensures Times(n, x) == n as real * x
    decreases n
  {
    if n > 0 {
      TimesIsProduct(n - 1, x);
      assert n as real * x == (n - 1) as real * x + x;
    }
  }

  lemma {:induction false} TimesIsPositive(n: nat, x: real)
    requires x >= 0.0
    ensures Times(n, x) >= 0.0
    decreases n
  {
    if n > 0 {
      TimesIsPositive(n - 1, x);
    }
  }

  /** How long a silent window's next reload waits. */
  function NextThreshold(done: nat): (r: real)
    ensures r >= 0.0
  {
    ReloadThreshold(if done == 0 then 0 else done - 1)
  }

  lemma LookAtSilent(s: Single, g: Glance, done: nat, at: real)
    requires SilentAfter(s, done, at) && g.readAt <= g.resetAt
    ensures
      var (verdict, next) := Look(s, true, g.readAt, g.resetAt);
      && (verdict.Reload? <==> g.readAt - at > NextThreshold(done))
      && (verdict.Reload? ==> SilentAfter(next, done + 1, g.resetAt))
      && (!verdict.Reload? ==> SilentAfter(next, done, at))
  {
    hide Pow2;
    CappedThreshold(done);
  }

  /** The n-th reload of a silent window comes by the sum of the thresholds, one gap for each
      reload, and the pauses before it, if the window is looked at that long. */
  lemma {:induction false} SilentReloadsCome(s: Single, glances: seq<Glance>, done: nat, at: real, last: real, gap: real,
                                             pause: real, n: nat)
    requires SilentAfter(s, done, at) && GlancesAscend(glances, last) && LooksOften(glances, last, gap, pause)
    requires 0 < n && gap >= 0.0 && pause >= 0.0 && last - at <= NextThreshold(done)
    requires glances != [] && glances[|glances| - 1].readAt > at + Waited(done, n) + Times(n - 1, gap + pause)
    ensures |ReloadTimes(s, glances)| >= n
    ensures ReloadTimes(s, glances)[n - 1] <= at + Waited(done, n) + Times(n, gap) + Times(n - 1, pause)
    decreases |glances|
  {
    var g, rest := glances[0], glances[1..];
    var (verdict, next) := Look(s, true, g.readAt, g.resetAt);
    hide ReloadThreshold, SilentAfter, Look;
    LookAtSilent(s, g, done, at);
    assert Waited(done, n) == NextThreshold(done) + Waited(done + 1, n - 1);
    hide NextThreshold;
    WaitedIsPositive(done + 1, n - 1);
    TimesIsPositive(n - 1, gap + pause);
    TimesIsPositive(n - 1, gap);
    TimesIsPositive(n - 1, pause);
    GlancesAscendFrom(rest, g.readAt, g.resetAt);
    if verdict.Reload? && n == 1 {
      assert Waited(done + 1, 0) == 0.0;
    } else {
      if n > 1 {
        TimesIsPositive(n - 2, gap + pause);
      }
      assert |glances| > 1;
      assert rest[|rest| - 1] == glances[|glances| - 1];
      if verdict.Reload? {
        SilentReloadsCome(next, rest, done + 1, g.resetAt, g.readAt, gap, pause, n - 1);
      } else {
        SilentReloadsCome(next, rest, done, at, g.readAt, gap, pause, n);
      }
    }
  }

  lemma {:induction false} WaitedIsPositive(done: nat, n: nat)
    ensures Waited(done, n) >= 0.0
    decreases n
  {
    if n > 0 {
      WaitedIsPositive(done + 1, n - 1);
    }
  }

  /** So the n-th reload of a window that stays on screen and never beats comes, and comes no
      later than the bound below it, one gap between looks for each reload, and the pauses
      between reading and restarting the clock. */
  lemma NthReloadComes(count: nat, dog: Option<Watchdog>, glances: seq<Glance>, at: real, gap: real, pause: real, n: nat)
    requires (dog == None || dog == Some(FRESH)) && GlancesAscend(glances, at) && LooksOften(glances, at, gap, pause)
    requires 0 < n && gap >= 0.0 && pause >= 0.0 && glances != []
    requires
      var waited := if n <= 7 then 60.0 * Pow2(n - 1) else 3840.0 + 1920.0 * (n - 7) as real;
      glances[|glances| - 1].readAt > at + waited + (n - 1) as real * (gap + pause)
    ensures
      var waited := if n <= 7 then 60.0 * Pow2(n - 1) else 3840.0 + 1920.0 * (n - 7) as real;
      var times := ReloadTimes(Single(Some(Beat(at, count)), dog), glances);
      |times| >= n && times[n - 1] <= at + waited + n as real * gap + (n - 1) as real * pause
  {
    hide Waited, ReloadTimes, GlancesAscend, LooksOften, Times, Pow2;
    WaitedIsClosedForm(n);
    TimesIsProduct(n - 1, gap + pause);
    TimesIsProduct(n, gap);
    TimesIsProduct(n - 1, pause);
    SilentReloadsCome(Single(Some(Beat(at, count)), dog), glances, 0, at, at, gap, pause, n);
  }

  // ---- The maps themselves ----

  const MAIN_WINDOW := "main"
  const APP_WINDOW_PREFIX := "window-"

  predicate IsAppWindow(page: Label) {
    page == MAIN_WINDOW || APP_WINDOW_PREFIX <= page
  }

  /** A webview as a tick meets it, and the clock when it does. */
  datatype View = View(page: Label, onScreen: bool, readAt: real, resetAt: real)

  /** What a tick made of a window. */
  datatype Judgement = Judgement(view: View, verdict: Verdict)

  /** A heartbeat from another thread. */
  datatype Arrival = Arrival(page: Label, now: real)

  function AppViews(views: seq<View>): seq<View> {
    if views == [] then []
    else
      AppViews(views[..|views| - 1])
      + if IsAppWindow(views[|views| - 1].page) then [views[|views| - 1]] else []
  }

  function ViewsOf(judged: seq<Judgement>): (r: seq<View>)
    ensures |r| == |judged| && forall i :: 0 <= i < |r| ==> r[i] == judged[i].view
  {
    seq(|judged|, i requires 0 <= i < |judged| => judged[i].view)
  }

  function Live(judged: seq<Judgement>): set<Label> {
    set j | j in judged :: j.view.page
  }

  function Records(arrivals: seq<Arrival>): seq<Event> {
    if arrivals == [] then []
    else Records(arrivals[..|arrivals| - 1]) + [Record(arrivals[|arrivals| - 1].page, arrivals[|arrivals| - 1].now)]
  }

  /** The events of the tick's own thread. */
  function Own(events: seq<Event>): seq<Event> {
    if events == [] then []
    else Own(events[..|events| - 1]) + if events[|events| - 1].Record? then [] else [events[|events| - 1]]
  }

  /** A window is judged, and its clock restarts unless it is only watched. */
  function Judging(j: Judgement): seq<Event> {
    [Judge(j.view.page, j.view.onScreen, j.view.readAt)]
    + if j.verdict == Watching then [] else [ResetClock(j.view.page, j.view.resetAt)]
  }

  function AllJudging(judged: seq<Judgement>): seq<Event> {
    if judged == [] then [] else AllJudging(judged[..|judged| - 1]) + Judging(judged[|judged| - 1])
  }

  /** The windows that beat and were not forgotten after it. */
  function Late(events: seq<Event>): set<Label> {
    if events == [] then {}
    else
      var (before, last) := (Late(events[..|events| - 1]), events[|events| - 1]);
      match last
      case Record(l, _) => before + {l}
      case Forget(l) => before - {l}
      case _ => before
  }

  /** Heartbeats, and a `Forget` for just the windows in `gone`. */
  ghost predicate IsSweep(events: seq<Event>, gone: set<Label>) {
    (forall e :: e in events ==> e.Record? || (e.Forget? && e.page in gone))
    && forall l :: l in gone ==> Forget(l) in events
  }

  lemma {:induction false} RunConcat(s: Shared, a: seq<Event>, b: seq<Event>)
    ensures Run(s, a + b) == Run(Run(s, a), b)
    decreases |a|
  {
    if a == [] {
      assert a + b == b;
    } else {
      assert (a + b)[1..] == a[1..] + b && (a + b)[0] == a[0];
      RunConcat(Step(s, a[0]).0, a[1..], b);
    }
  }

  lemma {:induction false} VerdictsConcat(s: Shared, a: seq<Event>, b: seq<Event>, page: Label)
    ensures VerdictsFor(s, a + b, page) == VerdictsFor(s, a, page) + VerdictsFor(Run(s, a), b, page)
    decreases |a|
  {
    hide Step;
    if a == [] {
      assert a + b == b;
    } else {
      assert (a + b)[1..] == a[1..] + b && (a + b)[0] == a[0];
      VerdictsConcat(Step(s, a[0]).0, a[1..], b, page);
    }
  }

  lemma {:induction false} OwnConcat(a: seq<Event>, b: seq<Event>)
    ensures Own(a + b) == Own(a) + Own(b)
    decreases |b|
  {
    if b == [] {
      assert a + b == a;
    } else {
      assert (a + b)[..|a + b| - 1] == a + b[..|b| - 1];
      OwnConcat(a, b[..|b| - 1]);
    }
  }

  lemma {:induction false} RecordsAreNotOwn(arrivals: seq<Arrival>)
    ensures Own(Records(arrivals)) == [] && forall e :: e in Records(arrivals) ==> e.Record?
    decreases |arrivals|
  {
    if arrivals != [] {
      RecordsAreNotOwn(arrivals[..|arrivals| - 1]);
      OwnConcat(Records(arrivals[..|arrivals| - 1]),
        [Record(arrivals[|arrivals| - 1].page, arrivals[|arrivals| - 1].now)]);
    }
  }

  /** Where nothing is judged there is no verdict, and no state machine comes or goes. */
  lemma {:induction false} NoJudgeNoVerdict(s: Shared, events: seq<Event>, page: Label)
    requires forall e :: e in events ==> e.Record? || e.Forget? || e.ResetClock?
    ensures VerdictsFor(s, events, page) == [] && Run(s, events).dogs == s.dogs
    decreases |events|
  {
    if events != [] {
      assert events[0] in events;
      NoJudgeNoVerdict(Step(s, events[0]).0, events[1..], page);
    }
  }

  /** The windows known after a sweep amid heartbeats: those no one forgot, and the late ones. */
  lemma {:induction false} KnownAfterSweep(s: Shared, events: seq<Event>, gone: set<Label>, l: Label)
    requires forall e :: e in events ==> e.Record? || (e.Forget? && e.page in gone)
    ensures l in Run(s, events).beats <==> (l in s.beats && Forget(l) !in events) || l in Late(events)
    ensures Run(s, events).dogs == s.dogs
    decreases |events|
  {
    if events != [] {
      var init, last := events[..|events| - 1], events[|events| - 1];
      assert events == init + [last] && last in events;
      KnownAfterSweep(s, init, gone, l);
      RunConcat(s, init, [last]);
      assert Run(Run(s, init), [last]) == Step(Run(s, init), last).0;
    }
  }

  /** So a sweep leaves exactly the live windows and the late ones. */
  lemma SweptAmidHeartbeats(s: Shared, events: seq<Event>, live: set<Label>)
    requires live <= s.beats.Keys && IsSweep(events, s.beats.Keys - live)
    ensures Run(s, events).beats.Keys == live + Late(events)
  {
    forall l ensures l in Run(s, events).beats <==> l in live || l in Late(events) {
      KnownAfterSweep(s, events, s.beats.Keys - live, l);
    }
  }

  class Monitor {
    var beats: map<Label, Beat>
    var dogs: map<Label, Watchdog>

    ghost function State(): Shared
      reads this
    {
      Shared(beats, dogs)
    }

    constructor ()
      ensures beats == map[] && dogs == map[]
    {
      beats, dogs := map[], map[];
    }

    /** A page said it is alive. */
    method Heartbeat(page: Label, now: real)
      modifies this`beats
      ensures State() == Step(old(State()), Record(page, now)).0
    {
      var beat := if page in beats then beats[page] else Beat(now, 0);
      beats := beats[page := Beat(now, beat.count + 1)];
    }

    /** The heartbeats that other threads bring while the tick does not hold the lock. */
    method Arrive(arrivals: seq<Arrival>)
      modifies this`beats
      ensures State() == Run(old(State()), Records(arrivals))
    {
      for k := 0 to |arrivals|
        invariant State() == Run(old(State()), Records(arrivals[..k]))
      {
        assert arrivals[..k + 1][..k] == arrivals[..k];
        RunConcat(old(State()), Records(arrivals[..k]), [Record(arrivals[k].page, arrivals[k].now)]);
        RunOne(State(), Record(arrivals[k].page, arrivals[k].now));
        Heartbeat(arrivals[k].page, arrivals[k].now);
      }
      assert arrivals[..|arrivals|] == arrivals;
    }

    /** How long a page has been silent, starting its clock at first sight. */
    method Read(page: Label, now: real) returns (silentFor: real, heartbeats: nat)
      modifies this`beats
      ensures beats == old(beats)[page := Seen(Lookup(old(beats), page), now)]
      ensures silentFor == now - beats[page].at && heartbeats == beats[page].count
    {
      if page !in beats {
        beats := beats[page := Beat(now, 0)];
      }
      assert beats == old(beats)[page := Seen(Lookup(old(beats), page), now)];
      silentFor, heartbeats := now - beats[page].at, beats[page].count;
    }

    method RestartClock(page: Label, now: real)
      modifies this`beats
      ensures State() == Step(old(State()), ResetClock(page, now)).0
    {
      if page in beats {
        beats := beats[page := beats[page].(at := now)];
      }
    }

    /** One window's part of a tick. Heartbeats may arrive before its clock restarts. */
    method JudgeOne(v: View, arrivals: seq<Arrival>) returns (verdict: Verdict, ghost events: seq<Event>)
      modifies this
      ensures State() == Run(old(State()), events)
      ensures Own(events) == Judging(Judgement(v, verdict))
      ensures VerdictsFor(old(State()), events, v.page) == [verdict]
      ensures forall l :: l != v.page ==> VerdictsFor(old(State()), events, l) == []
      ensures forall l :: l in old(beats) || l == v.page ==> l in beats
      ensures dogs.Keys == old(dogs.Keys) + {v.page}
    {
      hide OnTick;
      ghost var s := State();
      ghost var judge := Judge(v.page, v.onScreen, v.readAt);
      var silentFor, heartbeats := Read(v.page, v.readAt);
      var dog := if v.page in dogs then dogs[v.page] else FRESH;
      var (judged, next) := OnTick(dog, v.onScreen, silentFor, heartbeats);
      verdict := judged;
      dogs := dogs[v.page := next];
      assert State() == Step(s, judge).0 && Step(s, judge).1 == Some(verdict);
      ghost var s1 := State();
      ghost var rest: seq<Event> := [];
      if verdict != Watching {
        Arrive(arrivals);
        ghost var s2 := State();
        RestartClock(v.page, v.resetAt);
        rest := Records(arrivals) + [ResetClock(v.page, v.resetAt)];
        RunConcat(s1, Records(arrivals), [ResetClock(v.page, v.resetAt)]);
        RunOne(s2, ResetClock(v.page, v.resetAt));
      }
      events := [judge] + rest;
      JudgedEvents(s, v, arrivals, verdict, rest);
    }

    /** One pass over every app window, then the sweep of the windows that are gone. The lock
        is held for one call at a time: before the k-th of them, `arrivals(k)` beat. */
    method Tick(views: seq<View>, arrivals: nat -> seq<Arrival>)
      returns (judged: seq<Judgement>, ghost judging: seq<Event>, ghost sweeping: seq<Event>)
      requires forall i, j :: 0 <= i < j < |views| ==> views[i].page != views[j].page
      modifies this
      ensures ViewsOf(judged) == AppViews(views)
      ensures State() == Run(old(State()), judging + sweeping)
      ensures Own(judging) == AllJudging(judged) + [RetainDogs(Live(judged))]
      ensures IsSweep(sweeping, Run(old(State()), judging).beats.Keys - Live(judged))
      ensures forall j :: j in judged ==> VerdictsFor(old(State()), judging + sweeping, j.view.page) == [j.verdict]
      ensures dogs.Keys == Live(judged)
      ensures beats.Keys == Live(judged) + Late(sweeping)
    {
      hide OnTick, Live, IsAppWindow, Run, VerdictsFor, Own, AllJudging, Judging, Late, IsSweep, AppViews, Records;
      ghost var s := State();
      var call: nat;
      judged, judging, call := JudgeAll(views, arrivals);
      var live := Live(judged);
      HeartbeatsBetween(s, judging, judged, State(), arrivals(call));
      Arrive(arrivals(call));
      judging := judging + Records(arrivals(call));
      ghost var s1 := State();
      dogs := map l | l in dogs && l in live :: dogs[l];
      Retained(s, judging, judged, s1, State(), live);
      judging := judging + [RetainDogs(live)];
      ghost var s2 := State();
      Arrive(arrivals(call + 1));
      var labels := beats.Keys;
      ghost var s3 := State();
      Listed(s, judging, arrivals(call + 1), judged, s2, s3, live);
      judging := judging + Records(arrivals(call + 1));
      sweeping := Sweep(labels, live, arrivals, call + 2);
      SweptAmidHeartbeats(s3, sweeping, live);
      TickIsDone(s, judging, sweeping, judged, s3, State(), live);
    }

    /** The loop over the windows. */
    method JudgeAll(views: seq<View>, arrivals: nat -> seq<Arrival>)
      returns (judged: seq<Judgement>, ghost judging: seq<Event>, call: nat)
      requires forall i, j :: 0 <= i < j < |views| ==> views[i].page != views[j].page
      modifies this
      ensures ViewsOf(judged) == AppViews(views)
      ensures IsJudged(old(State()), judging, judged, State())
    {
      hide OnTick, IsAppWindow, IsJudged, Judging, VerdictsFor;
      judged, judging, call := [], [], 0;
      ghost var s := State();
      NothingJudged(s);
      for i := 0 to |views|
        invariant ViewsOf(judged) == AppViews(views[..i])
        invariant IsJudged(s, judging, judged, State())
      {
        var v := views[i];
        assert views[..i + 1][..i] == views[..i];
        NotYetJudged(views, i, judged);
        if !IsAppWindow(v.page) {
          continue;
        }
        HeartbeatsBetween(s, judging, judged, State(), arrivals(call));
        Arrive(arrivals(call));
        ghost var s1 := State();
        judging := judging + Records(arrivals(call));
        var verdict;
        ghost var events;
        verdict, events := JudgeOne(v, arrivals(call + 1));
        OneMoreJudged(s, judging, judged, s1, v, verdict, events, State());
        judging, judged, call := judging + events, judged + [Judgement(v, verdict)], call + 2;
      }
      assert views[..|views|] == views;
    }

    /** The end of a tick: of the labels that were read, those that are not live are
        forgotten, one lock at a time. */
    method Sweep(labels: set<Label>, live: set<Label>, arrivals: nat -> seq<Arrival>, call: nat)
      returns (ghost sweeping: seq<Event>)
      modifies this`beats
      ensures State() == Run(old(State()), sweeping)
      ensures IsSweep(sweeping, labels - live)
    {
      hide Run, Records;
      var gone, k := labels - live, call;
      sweeping := [];
      ghost var s := State();
      RunNone(s);
      while gone != {}
        invariant gone <= labels - live && State() == Run(s, sweeping)
        invariant IsSweep(sweeping, labels - live - gone)
        decreases gone
      {
        var page :| page in gone;
        Arrive(arrivals(k));
        ghost var s1 := State();
        RunConcat(s, sweeping, Records(arrivals(k)));
        beats := beats - {page};
        RunConcat(s, sweeping + Records(arrivals(k)), [Forget(page)]);
        RunOne(s1, Forget(page));
        RecordsAreNotOwn(arrivals(k));
        SweepGrows(sweeping, Records(arrivals(k)), page, labels - live - gone);
        sweeping := sweeping + Records(arrivals(k)) + [Forget(page)];
        assert labels - live - (gone - {page}) == labels - live - gone + {page};
        gone, k := gone - {page}, k + 1;
      }
      assert labels - live - {} == labels - live;
    }
  }

  lemma RunNone(s: Shared)
    ensures Run(s, []) == s
  {
  }

  lemma RunOne(s: Shared, e: Event)
    ensures Run(s, [e]) == Step(s, e).0
  {
    assert [e][1..] == [];
  }

  lemma SweepGrows(sweeping: seq<Event>, records: seq<Event>, page: Label, gone: set<Label>)
    requires IsSweep(sweeping, gone) && forall e :: e in records ==> e.Record?
    ensures IsSweep(sweeping + records + [Forget(page)], gone + {page})
  {
    var more := sweeping + records + [Forget(page)];
    forall l | l in gone + {page} ensures Forget(l) in more {
      if l in gone {
        assert Forget(l) in sweeping;
      } else {
        assert more[|more| - 1] == Forget(page);
      }
    }
  }

  /** The events of one window's judgement, for itself and for the others. */
  lemma JudgedEvents(s: Shared, v: View, arrivals: seq<Arrival>, verdict: Verdict, rest: seq<Event>)
    requires Step(s, Judge(v.page, v.onScreen, v.readAt)).1 == Some(verdict)
    requires rest == if verdict == Watching then [] else Records(arrivals) + [ResetClock(v.page, v.resetAt)]
    ensures
      var (judge, next) := (Judge(v.page, v.onScreen, v.readAt), Step(s, Judge(v.page, v.onScreen, v.readAt)).0);
      var events := [judge] + rest;
      && Run(s, events) == Run(next, rest) && Own(events) == Judging(Judgement(v, verdict))
      && Run(next, rest).dogs == next.dogs && next.beats.Keys <= Run(next, rest).beats.Keys
      && VerdictsFor(s, events, v.page) == [verdict]
      && forall l :: l != v.page ==> VerdictsFor(s, events, l) == []
  {
    hide Own, Run, VerdictsFor, Step, Judging, Records;
    var judge := Judge(v.page, v.onScreen, v.readAt);
    var next := Step(s, judge).0;
    OwnOfJudging(v, arrivals, verdict, rest);
    OneJudge(s, judge);
    RunConcat(s, [judge], rest);
    forall l ensures VerdictsFor(s, [judge] + rest, l) == VerdictsFor(s, [judge], l) {
      VerdictsConcat(s, [judge], rest, l);
      NoJudgeNoVerdict(next, rest, l);
    }
    NoJudgeNoVerdict(next, rest, v.page);
    BeatsStay(next, rest);
  }

  lemma OwnOfJudging(v: View, arrivals: seq<Arrival>, verdict: Verdict, rest: seq<Event>)
    requires rest == if verdict == Watching then [] else Records(arrivals) + [ResetClock(v.page, v.resetAt)]
    ensures Own([Judge(v.page, v.onScreen, v.readAt)] + rest) == Judging(Judgement(v, verdict))
    ensures forall e :: e in rest ==> e.Record? || e.ResetClock?
  {
    var judge := Judge(v.page, v.onScreen, v.readAt);
    RecordsAreNotOwn(arrivals);
    OwnConcat([judge], rest);
    OwnOne(judge);
    OwnOne(ResetClock(v.page, v.resetAt));
    OwnConcat(Records(arrivals), [ResetClock(v.page, v.resetAt)]);
  }

  /** A single judgement has one verdict, for its own page. */
  lemma OneJudge(s: Shared, judge: Event)
    requires judge.Judge?
    ensures Run(s, [judge]) == Step(s, judge).0
    ensures forall l :: VerdictsFor(s, [judge], l) == if l == judge.page then [Step(s, judge).1.value] else []
  {
    hide OnTick;
    assert [judge][1..] == [];
  }

  lemma OwnOne(e: Event)
    ensures Own([e]) == if e.Record? then [] else [e]
  {
    assert [e][..0] == [];
  }

  lemma {:induction false} BeatsStay(s: Shared, events: seq<Event>)
    requires forall e :: e in events ==> !e.Forget?
    ensures s.beats.Keys <= Run(s, events).beats.Keys
    decreases |events|
  {
    hide OnTick;
    if events != [] {
      assert events[0] in events;
      BeatsStay(Step(s, events[0]).0, events[1..]);
    }
  }

  /** Where the loop over the windows stands: what ran, what it judged, and what is known. */
  ghost predicate IsJudged(s: Shared, judging: seq<Event>, judged: seq<Judgement>, now: Shared) {
    && now == Run(s, judging)
    && Own(judging) == AllJudging(judged)
    && (forall j :: j in judged ==> VerdictsFor(s, judging, j.view.page) == [j.verdict])
    && (forall l :: l !in Live(judged) ==> VerdictsFor(s, judging, l) == [])
    && Live(judged) <= now.beats.Keys && Live(judged) <= now.dogs.Keys
  }

  lemma NothingJudged(s: Shared)
    ensures IsJudged(s, [], [], s)
  {
  }

  lemma HeartbeatsBetween(s: Shared, judging: seq<Event>, judged: seq<Judgement>, mid: Shared, arrivals: seq<Arrival>)
    requires IsJudged(s, judging, judged, mid)
    ensures IsJudged(s, judging + Records(arrivals), judged, Run(mid, Records(arrivals)))
  {
    hide AllJudging, Live;
    var records := Records(arrivals);
    RunConcat(s, judging, records);
    OwnConcat(judging, records);
    RecordsAreNotOwn(arrivals);
    forall l ensures VerdictsFor(s, judging + records, l) == VerdictsFor(s, judging, l) {
      VerdictsConcat(s, judging, records, l);
      NoJudgeNoVerdict(Run(s, judging), records, l);
    }
    NoJudgeNoVerdict(Run(s, judging), records, "");
    BeatsStay(Run(s, judging), records);
  }

  lemma OneMoreJudged(s: Shared, judging: seq<Event>, judged: seq<Judgement>, mid: Shared, v: View, verdict: Verdict,
                      events: seq<Event>, now: Shared)
    requires IsJudged(s, judging, judged, mid) && v.page !in Live(judged)
    requires now == Run(mid, events) && Own(events) == Judging(Judgement(v, verdict))
    requires VerdictsFor(mid, events, v.page) == [verdict]
    requires forall l :: l != v.page ==> VerdictsFor(mid, events, l) == []
    requires forall l :: l in mid.beats || l == v.page ==> l in now.beats
    requires now.dogs.Keys == mid.dogs.Keys + {v.page}
    ensures IsJudged(s, judging + events, judged + [Judgement(v, verdict)], now)
  {
    hide Judging, VerdictsFor, Run, Own, Step;
    var j := Judgement(v, verdict);
    RunConcat(s, judging, events);
    OwnConcat(judging, events);
    assert (judged + [j])[..|judged|] == judged;
    assert AllJudging(judged + [j]) == AllJudging(judged) + Judging(j);
    LiveAppend(judged, j);
    hide AllJudging;
    forall l ensures VerdictsFor(s, judging + events, l) == VerdictsFor(s, judging, l) + VerdictsFor(mid, events, l) {
      VerdictsConcat(s, judging, events, l);
    }
    forall k | k in judged ensures k.view.page != v.page {
      assert k.view.page in Live(judged);
    }
  }

  lemma LiveAppend(judged: seq<Judgement>, j: Judgement)
    ensures Live(judged + [j]) == Live(judged) + {j.view.page}
  {
    assert j in judged + [j];
    forall k | k in judged ensures k in judged + [j] {
    }
  }

  lemma NotYetJudged(views: seq<View>, i: nat, judged: seq<Judgement>)
    requires i < |views| && forall j, k :: 0 <= j < k < |views| ==> views[j].page != views[k].page
    requires ViewsOf(judged) == AppViews(views[..i])
    ensures views[i].page !in Live(judged)
  {
    AppViewsAreViews(views[..i]);
    forall j | j in judged ensures j.view.page != views[i].page {
      var k :| 0 <= k < |judged| && judged[k] == j;
      assert ViewsOf(judged)[k] in views[..i];
    }
  }

  lemma {:induction false} AppViewsAreViews(views: seq<View>)
    ensures forall v :: v in AppViews(views) <==> v in views && IsAppWindow(v.page)
    decreases |views|
  {
    if views != [] {
      AppViewsAreViews(views[..|views| - 1]);
      assert views == views[..|views| - 1] + [views[|views| - 1]];
    }
  }

  lemma Retained(s: Shared, judging: seq<Event>, judged: seq<Judgement>, mid: Shared, now: Shared, live: set<Label>)
    requires IsJudged(s, judging, judged, mid) && live == Live(judged) && now == Step(mid, RetainDogs(live)).0
    ensures IsRetained(s, judging + [RetainDogs(live)], judged, now)
  {
    hide AllJudging, Live, VerdictsFor, Run;
    var more, e := judging, RetainDogs(live);
    RunConcat(s, more, [e]);
    RunOne(mid, e);
    OwnConcat(more, [e]);
    OwnOne(e);
    forall l ensures VerdictsFor(s, more + [e], l) == VerdictsFor(s, more, l) {
      VerdictsConcat(s, more, [e], l);
      RetainIsNoVerdict(mid, live, l);
    }
  }

  lemma RetainIsNoVerdict(s: Shared, live: set<Label>, l: Label)
    ensures VerdictsFor(s, [RetainDogs(live)], l) == []
  {
    assert [RetainDogs(live)][1..] == [];
  }

  /** The state machines are those of the live windows. */
  ghost predicate IsRetained(s: Shared, judging: seq<Event>, judged: seq<Judgement>, now: Shared) {
    && now == Run(s, judging)
    && Own(judging) == AllJudging(judged) + [RetainDogs(Live(judged))]
    && (forall j :: j in judged ==> VerdictsFor(s, judging, j.view.page) == [j.verdict])
    && Live(judged) <= now.beats.Keys && now.dogs.Keys == Live(judged)
  }

  lemma Listed(s: Shared, judging: seq<Event>, arrivals: seq<Arrival>, judged: seq<Judgement>, mid: Shared, now: Shared,
               live: set<Label>)
    requires IsRetained(s, judging, judged, mid) && now == Run(mid, Records(arrivals)) && live == Live(judged)
    ensures IsRetained(s, judging + Records(arrivals), judged, now)
  {
    hide AllJudging, Live;
    var records := Records(arrivals);
    RunConcat(s, judging, records);
    OwnConcat(judging, records);
    RecordsAreNotOwn(arrivals);
    forall l ensures VerdictsFor(s, judging + records, l) == VerdictsFor(s, judging, l) {
      VerdictsConcat(s, judging, records, l);
      NoJudgeNoVerdict(mid, records, l);
    }
    NoJudgeNoVerdict(mid, records, "");
    BeatsStay(mid, records);
  }

  lemma TickIsDone(s: Shared, judging: seq<Event>, sweeping: seq<Event>, judged: seq<Judgement>, mid: Shared, now: Shared,
                   live: set<Label>)
    requires IsRetained(s, judging, judged, mid) && live == Live(judged)
    requires IsSweep(sweeping, mid.beats.Keys - live) && now == Run(mid, sweeping)
    ensures now == Run(s, judging + sweeping) && now.dogs.Keys == live
    ensures forall j :: j in judged ==> VerdictsFor(s, judging + sweeping, j.view.page) == [j.verdict]
    ensures Own(judging) == AllJudging(judged) + [RetainDogs(live)] && mid == Run(s, judging)
  {
    hide AllJudging, Live, Own;
    RunConcat(s, judging, sweeping);
    forall l ensures VerdictsFor(s, judging + sweeping, l) == VerdictsFor(s, judging, l) {
      VerdictsConcat(s, judging, sweeping, l);
      NoJudgeNoVerdict(mid, sweeping, l);
    }
    NoJudgeNoVerdict(mid, sweeping, "");
  }

  /** Whatever arrives meanwhile, a window leaves a run as it would alone. */
  lemma {:induction false} RunProjects(s: Shared, events: seq<Event>, page: Label)
    ensures Project(Run(s, events), page) == RunSingle(Project(s, page), Only(events, page))
    decreases |events|
  {
    hide OnTick;
    if events != [] {
      var e := events[0];
      StepProjects(s, e, page);
      RunProjects(Step(s, e).0, events[1..], page);
      var one, rest := ForLabel(e, page), Only(events[1..], page);
      if one.Some? {
        assert ([one.value] + rest)[1..] == rest;
      } else {
        assert Only(events, page) == rest;
      }
    }
  }

  /** The maps hold exactly the live windows iff every window that beat late is live. */
  lemma OnlyLateBeatsStay(s: Shared, events: seq<Event>, live: set<Label>)
    requires live <= s.beats.Keys && IsSweep(events, s.beats.Keys - live)
    ensures Run(s, events).beats.Keys == live <==> Late(events) <= live
    ensures (forall e :: e in events ==> !e.Record?) ==> Run(s, events).beats.Keys == live
  {
    hide Run;
    SweptAmidHeartbeats(s, events, live);
    if forall e :: e in events ==> !e.Record? {
      NobodyIsLate(events);
    }
  }

  lemma {:induction false} NobodyIsLate(events: seq<Event>)
    requires forall e :: e in events ==> !e.Record?
    ensures Late(events) == {}
    decreases |events|
  {
    if events != [] {
      assert events[|events| - 1] in events;
      NobodyIsLate(events[..|events| - 1]);
    }
  }
}
