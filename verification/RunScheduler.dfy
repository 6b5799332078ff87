/** The two-slot run scheduler of scripts/eval-comments/harness.py, as atomic steps
    over the queues, the slots and the run states on disk. */
module SchedulerSteps {
  type Rid = nat

  datatype Status = Queued | Running | AbortedMemory | Finished | TimedOut | Graded | Failed

  /** What a run's `meta.json` holds of interest here. */
  datatype Meta = Meta(status: Status, windowCuts: nat, errors: nat)

  const MAX_ERRORS := 3

  predicate InSessionStates(status: Status) {
    status == Queued || status == Running || status == AbortedMemory
  }

  predicate InGradeStates(status: Status) {
    status == Finished || status == TimedOut
  }

  /** A queued session: the run, and how often memory has aborted it. */
  datatype Item = Item(rid: Rid, attempt: nat)

  /** What one slot is in the middle of. */
  datatype Slot =
    | Idle
    | Grading(rid: Rid)
    | Launching(rid: Rid, attempt: nat)
    | InSession(rid: Rid, attempt: nat)
    | Ended(rid: Rid, attempt: nat, outcome: Status)
    | Settled(rid: Rid, attempt: nat, outcome: Status)
    | Stopped

  /** `starts` counts the sessions this process has started for each run. */
  datatype State = State(
    disk: map<Rid, Meta>,
    toRun: seq<Item>,
    toGrade: seq<Rid>,
    slots: seq<Slot>,
    memoryKilled: set<Rid>,
    watched: set<Rid>,
    regrade: bool,
    starts: map<Rid, nat>)

  /** The atomic steps: one lock-protected section, or one write to disk, each. */
  datatype Action =
    | TakeGrade(slot: nat)
    | TakeSession(slot: nat, index: nat)
    | NothingFits(slot: nat)
    | GradeDone(slot: nat)
    | WindowEnds(slot: nat)
    | GiveBack(slot: nat)
    | MarkRunning(slot: nat)
    | CutByWindow(slot: nat)
    | ProcessEnds(slot: nat, timedOut: bool)
    | WriteOutcome(slot: nat)
    | Requeue(slot: nat)
    | Error(slot: nat)
    | WatchdogLooks
    | WatchdogKills(rid: Rid)
    | Restart(order: seq<Rid>, regradeNext: bool)

  predicate Holds(slot: Slot) {
    !slot.Idle? && !slot.Stopped?
  }

  // ---- A new process ----

  /** The runs with the most window cuts first, otherwise in the given order. */
  function InsertByCuts(disk: map<Rid, Meta>, rid: Rid, sorted: seq<Rid>): seq<Rid>
    requires rid in disk && forall r :: r in sorted ==> r in disk
  {
    if sorted == [] || disk[rid].windowCuts >= disk[sorted[0]].windowCuts then [rid] + sorted
    else [sorted[0]] + InsertByCuts(disk, rid, sorted[1..])
  }

  function CutFirst(disk: map<Rid, Meta>, runs: seq<Rid>): (sorted: seq<Rid>)
    requires forall r :: r in runs ==> r in disk
    ensures |sorted| == |runs| && multiset(sorted) == multiset(runs)
  {
    if runs == [] then []
    else
      assert runs == [runs[0]] + runs[1..];
      assert forall r :: r in runs[1..] ==> r in runs;
      assert forall r :: r in CutFirst(disk, runs[1..]) ==> r in multiset(runs[1..]);
      InsertKeeps(disk, runs[0], CutFirst(disk, runs[1..]));
      InsertByCuts(disk, runs[0], CutFirst(disk, runs[1..]))
  }

  lemma InsertKeeps(disk: map<Rid, Meta>, rid: Rid, sorted: seq<Rid>)
    requires rid in disk && forall r :: r in sorted ==> r in disk
    ensures multiset(InsertByCuts(disk, rid, sorted)) == multiset(sorted) + multiset{rid}
    ensures |InsertByCuts(disk, rid, sorted)| == |sorted| + 1
  {
    if sorted != [] && disk[rid].windowCuts < disk[sorted[0]].windowCuts {
      InsertKeeps(disk, rid, sorted[1..]);
      assert sorted == [sorted[0]] + sorted[1..];
    }
  }

  /** What the constructor queues for sessions, from runs already in order. */
  function SessionsOf(disk: map<Rid, Meta>, runs: seq<Rid>): seq<Item>
    requires forall r :: r in runs ==> r in disk
  {
    if runs == [] then []
    else
      var status := disk[runs[0]].status;
      (if InSessionStates(status) then [Item(runs[0], if status == AbortedMemory then 1 else 0)] else [])
      + SessionsOf(disk, runs[1..])
  }

  /** What the constructor queues for grading. */
  function GradesOf(disk: map<Rid, Meta>, runs: seq<Rid>, regrade: bool): seq<Rid>
    requires forall r :: r in runs ==> r in disk
  {
    if runs == [] then []
    else
      var status := disk[runs[0]].status;
      (if InGradeStates(status) || (regrade && status == Graded) then [runs[0]] else [])
      + GradesOf(disk, runs[1..], regrade)
  }

  predicate IsPlan(disk: map<Rid, Meta>, runs: seq<Rid>) {
    && (forall r :: r in runs ==> r in disk)
    && (forall r :: r in disk ==> r in runs)
    && (forall i, j :: 0 <= i < j < |runs| ==> runs[i] != runs[j])
  }

  function Fresh(disk: map<Rid, Meta>, runs: seq<Rid>, regrade: bool): State
    requires IsPlan(disk, runs)
  {
    var sorted := CutFirst(disk, runs);
    assert forall r :: r in sorted ==> r in multiset(runs);
    State(disk, SessionsOf(disk, sorted), GradesOf(disk, sorted, regrade), [Idle, Idle], {}, {}, regrade, map[])
  }

  // ---- The steps ----

  function SetStatus(disk: map<Rid, Meta>, rid: Rid, status: Status): map<Rid, Meta> {
    if rid in disk then disk[rid := disk[rid].(status := status)] else disk
  }

  predicate Enabled(s: State, a: Action) {
    match a
    case TakeGrade(w) => w < |s.slots| && s.slots[w].Idle? && s.toGrade != []
    case TakeSession(w, i) => w < |s.slots| && s.slots[w].Idle? && i < |s.toRun|
    case NothingFits(w) => w < |s.slots| && s.slots[w].Idle?
    case GradeDone(w) => w < |s.slots| && s.slots[w].Grading?
    case WindowEnds(w) => w < |s.slots| && Holds(s.slots[w])
    case GiveBack(w) => w < |s.slots| && s.slots[w].Launching?
    case MarkRunning(w) => w < |s.slots| && s.slots[w].Launching?
    case CutByWindow(w) => w < |s.slots| && s.slots[w].InSession?
    case ProcessEnds(w, _) => w < |s.slots| && s.slots[w].InSession?
    case WriteOutcome(w) => w < |s.slots| && s.slots[w].Ended?
    case Requeue(w) => w < |s.slots| && s.slots[w].Settled?
    case Error(w) => w < |s.slots| && Holds(s.slots[w]) && s.slots[w].rid in s.disk
    case WatchdogLooks => true
    case WatchdogKills(r) => r in s.watched
    case Restart(order, _) => IsPlan(s.disk, order)
  }

  function Apply(s: State, a: Action): State
    requires Enabled(s, a)
  {
    match a
    case TakeGrade(w) => s.(toGrade := s.toGrade[1..], slots := s.slots[w := Grading(s.toGrade[0])])
    case TakeSession(w, i) =>
      var item := s.toRun[i];
      s.(toRun := s.toRun[..i] + s.toRun[i + 1..], slots := s.slots[w := Launching(item.rid, item.attempt)])
    case NothingFits(w) => s.(slots := s.slots[w := Stopped])
    case GradeDone(w) => s.(disk := SetStatus(s.disk, s.slots[w].rid, Graded), slots := s.slots[w := Idle])
    case WindowEnds(w) => s.(slots := s.slots[w := Stopped])
    case GiveBack(w) =>
      var slot := s.slots[w];
      s.(toRun := [Item(slot.rid, slot.attempt)] + s.toRun, slots := s.slots[w := Stopped])
    case MarkRunning(w) =>
      var slot := s.slots[w];
      var n := if slot.rid in s.starts then s.starts[slot.rid] else 0;
      s.(disk := SetStatus(s.disk, slot.rid, Running), starts := s.starts[slot.rid := n + 1],
         slots := s.slots[w := InSession(slot.rid, slot.attempt)])
    case CutByWindow(w) =>
      var slot := s.slots[w];
      var disk := if slot.rid in s.disk
                  then s.disk[slot.rid := s.disk[slot.rid].(windowCuts := s.disk[slot.rid].windowCuts + 1)] else s.disk;
      s.(disk := disk, slots := s.slots[w := Ended(slot.rid, slot.attempt, Queued)])
    case ProcessEnds(w, timedOut) =>
      var slot := s.slots[w];
      var outcome := if slot.rid in s.memoryKilled then AbortedMemory else if timedOut then TimedOut else Finished;
      s.(memoryKilled := s.memoryKilled - {slot.rid}, slots := s.slots[w := Ended(slot.rid, slot.attempt, outcome)])
    case WriteOutcome(w) =>
      var slot := s.slots[w];
      s.(disk := SetStatus(s.disk, slot.rid, slot.outcome),
         slots := s.slots[w := Settled(slot.rid, slot.attempt, slot.outcome)])
    case Requeue(w) =>
      var slot := s.slots[w];
      var again := if slot.outcome == AbortedMemory && slot.attempt == 0 then [Item(slot.rid, 1)] else [];
      var grade := if InGradeStates(slot.outcome) then [slot.rid] else [];
      s.(toRun := s.toRun + again, toGrade := s.toGrade + grade, slots := s.slots[w := Idle])
    case Error(w) =>
      var slot := s.slots[w];
      var errors := s.disk[slot.rid].errors + 1;
      var retry := if slot.Grading? then Finished else Queued;
      var status := if errors >= MAX_ERRORS then Failed else retry;
      s.(disk := s.disk[slot.rid := s.disk[slot.rid].(status := status, errors := errors)], slots := s.slots[w := Idle])
    case WatchdogLooks =>
      s.(watched := set w | 0 <= w < |s.slots| && s.slots[w].InSession? :: s.slots[w].rid)
    case WatchdogKills(r) => s.(memoryKilled := s.memoryKilled + {r})
    case Restart(order, regradeNext) => Fresh(s.disk, order, regradeNext)
  }

  // ---- Who holds a run ----

  /** Where in the scheduler a run may be: at an index of a queue, or in a slot. */
  datatype Place = InToRun(index: nat) | InToGrade(index: nat) | InSlot(index: nat)

  ghost predicate At(s: State, p: Place, rid: Rid) {
    match p
    case InToRun(i) => i < |s.toRun| && s.toRun[i].rid == rid
    case InToGrade(i) => i < |s.toGrade| && s.toGrade[i] == rid
    case InSlot(i) => i < |s.slots| && Holds(s.slots[i]) && s.slots[i].rid == rid
  }

  /** No run is in two places. */
  ghost predicate HeldOnce(s: State) {
    forall p, q, rid {:trigger At(s, p, rid), At(s, q, rid)} :: At(s, p, rid) && At(s, q, rid) ==> p == q
  }

  predicate Gradable(s: State, rid: Rid)
    requires rid in s.disk
  {
    InGradeStates(s.disk[rid].status) || (s.regrade && s.disk[rid].status == Graded)
  }

  function Starts(s: State, rid: Rid): nat {
    if rid in s.starts then s.starts[rid] else 0
  }

  /** What the disk says of a run fits the place it is in. */
  ghost predicate SlotFits(s: State, slot: Slot)
    requires Holds(slot)
  {
    && slot.rid in s.disk
    && match slot
       case Grading(r) => Gradable(s, r)
       case Launching(r, a) => InSessionStates(s.disk[r].status) && Starts(s, r) <= a <= 1
       case InSession(r, a) => s.disk[r].status == Running && Starts(s, r) <= a + 1 <= 2
       case Ended(r, a, o) =>
         s.disk[r].status == Running && Starts(s, r) <= a + 1 <= 2 && o in {Queued, AbortedMemory, TimedOut, Finished}
       case Settled(r, a, o) =>
         s.disk[r].status == o && Starts(s, r) <= a + 1 <= 2 && o in {Queued, AbortedMemory, TimedOut, Finished}
  }

  ghost predicate PlacesFit(s: State) {
    && (forall i :: 0 <= i < |s.toRun| ==>
          var item := s.toRun[i];
          item.rid in s.disk && InSessionStates(s.disk[item.rid].status) && Starts(s, item.rid) <= item.attempt <= 1)
    && (forall i :: 0 <= i < |s.toGrade| ==> s.toGrade[i] in s.disk && Gradable(s, s.toGrade[i]))
    && (forall i :: 0 <= i < |s.slots| && Holds(s.slots[i]) ==> SlotFits(s, s.slots[i]))
  }

  /** A run has failed exactly when it has used up its errors. */
  ghost predicate ErrorsBounded(s: State) {
    forall r :: r in s.disk ==> s.disk[r].errors <= MAX_ERRORS && (s.disk[r].errors == MAX_ERRORS <==> s.disk[r].status == Failed)
  }

  ghost predicate StartsBounded(s: State) {
    forall r :: r in s.starts ==> s.starts[r] <= 2
  }

  ghost predicate Inv(s: State) {
    HeldOnce(s) && PlacesFit(s) && ErrorsBounded(s) && StartsBounded(s)
  }
}

/** What every interleaving of the steps keeps. */
module SchedulerSafety {
  import opened Sequences
  import opened SchedulerSteps

  /** Where a run that a step leaves at `p` was before the step. */
  ghost function Origin(s: State, a: Action, p: Place): Place
    requires Enabled(s, a)
  {
    match (a, p)
    case (TakeGrade(_), InToGrade(i)) => InToGrade(i + 1)
    case (TakeGrade(w), InSlot(i)) => if i == w then InToGrade(0) else p
    case (TakeSession(_, n), InToRun(i)) => if i < n then p else InToRun(i + 1)
    case (TakeSession(w, n), InSlot(i)) => if i == w then InToRun(n) else p
    case (GiveBack(w), InToRun(i)) => if i == 0 then InSlot(w) else InToRun(i - 1)
    case (Requeue(w), InToRun(i)) => if i < |s.toRun| then p else InSlot(w)
    case (Requeue(w), InToGrade(i)) => if i < |s.toGrade| then p else InSlot(w)
    case _ => p
  }

  lemma OriginHeld(s: State, a: Action, p: Place, rid: Rid)
    requires Enabled(s, a) && !a.Restart? && At(Apply(s, a), p, rid)
    ensures At(s, Origin(s, a, p), rid)
  {
  }

  lemma OriginsDiffer(s: State, a: Action, p: Place, q: Place, rid: Rid)
    requires Enabled(s, a) && !a.Restart? && p != q
    requires At(Apply(s, a), p, rid) && At(Apply(s, a), q, rid)
    ensures Origin(s, a, p) != Origin(s, a, q)
  {
  }

  lemma HeldOnceKept(s: State, a: Action)
    requires HeldOnce(s) && Enabled(s, a) && !a.Restart?
    ensures HeldOnce(Apply(s, a))
  {
    hide At, Enabled, Apply, Origin;
    var t := Apply(s, a);
    forall p, q, rid | At(t, p, rid) && At(t, q, rid) ensures p == q {
      OriginHeld(s, a, p, rid);
      OriginHeld(s, a, q, rid);
      if p != q {
        OriginsDiffer(s, a, p, q, rid);
      }
    }
  }

  /** A run a slot holds is in no queue and in no other slot. */
  lemma SlotIsAlone(s: State, w: nat)
    requires HeldOnce(s) && w < |s.slots| && Holds(s.slots[w])
    ensures forall i :: 0 <= i < |s.toRun| ==> s.toRun[i].rid != s.slots[w].rid
    ensures forall i :: 0 <= i < |s.toGrade| ==> s.toGrade[i] != s.slots[w].rid
    ensures forall i :: 0 <= i < |s.slots| && i != w && Holds(s.slots[i]) ==> s.slots[i].rid != s.slots[w].rid
  {
    var rid := s.slots[w].rid;
    assert At(s, InSlot(w), rid);
    forall i | 0 <= i < |s.toRun| ensures s.toRun[i].rid != rid {
      assert At(s, InToRun(i), s.toRun[i].rid);
    }
    forall i | 0 <= i < |s.toGrade| ensures s.toGrade[i] != rid {
      assert At(s, InToGrade(i), s.toGrade[i]);
    }
    forall i | 0 <= i < |s.slots| && i != w && Holds(s.slots[i]) ensures s.slots[i].rid != rid {
      assert At(s, InSlot(i), s.slots[i].rid);
    }
  }

  /** The steps that take a run from a queue, or touch no run. */
  lemma TakingKeepsPlaces(s: State, a: Action)
    requires PlacesFit(s) && Enabled(s, a)
    requires a.TakeGrade? || a.TakeSession? || a.NothingFits? || a.WatchdogLooks? || a.WatchdogKills?
    ensures PlacesFit(Apply(s, a))
  {
  }

  /** A slot may change what is known of its own run alone, as long as it still fits. */
  lemma RewritingKeepsPlaces(s: State, t: State, w: nat)
    requires PlacesFit(s) && HeldOnce(s) && w < |s.slots| && Holds(s.slots[w])
    requires t.toRun == s.toRun && t.toGrade == s.toGrade && t.regrade == s.regrade
    requires |t.slots| == |s.slots| && forall i :: 0 <= i < |s.slots| && i != w ==> t.slots[i] == s.slots[i]
    requires t.disk.Keys == s.disk.Keys
    requires forall r :: r in s.disk && r != s.slots[w].rid ==> t.disk[r] == s.disk[r] && Starts(t, r) == Starts(s, r)
    requires Holds(t.slots[w]) ==> SlotFits(t, t.slots[w])
    ensures PlacesFit(t)
  {
    SlotIsAlone(s, w);
    hide HeldOnce, Starts, InSessionStates, InGradeStates;
  }

  /** The steps of a slot that changes its run's state on disk. */
  lemma WritingKeepsPlaces(s: State, a: Action)
    requires PlacesFit(s) && HeldOnce(s) && Enabled(s, a)
    requires a.GradeDone? || a.MarkRunning? || a.CutByWindow? || a.WriteOutcome? || a.Error?
    ensures PlacesFit(Apply(s, a))
  {
    assert SlotFits(s, s.slots[a.slot]);
    hide HeldOnce, PlacesFit;
    RewritingKeepsPlaces(s, Apply(s, a), a.slot);
  }

  /** The steps of a slot that moves its run without a write. */
  lemma MovingKeepsPlaces(s: State, a: Action)
    requires PlacesFit(s) && HeldOnce(s) && Enabled(s, a)
    requires a.WindowEnds? || a.GiveBack? || a.ProcessEnds? || a.Requeue?
    ensures PlacesFit(Apply(s, a))
  {
    hide HeldOnce;
    assert SlotFits(s, s.slots[a.slot]);
  }

  lemma StepKeepsBounds(s: State, a: Action)
    requires PlacesFit(s) && ErrorsBounded(s) && StartsBounded(s) && Enabled(s, a) && !a.Restart?
    ensures ErrorsBounded(Apply(s, a)) && StartsBounded(Apply(s, a))
  {
    if a.GradeDone? || a.MarkRunning? || a.CutByWindow? || a.WriteOutcome? || a.Error? {
      assert SlotFits(s, s.slots[a.slot]);
    }
  }

  lemma StepKeepsInv(s: State, a: Action)
    requires Inv(s) && Enabled(s, a) && !a.Restart?
    ensures Inv(Apply(s, a))
  {
    hide HeldOnce, PlacesFit, ErrorsBounded, StartsBounded, Apply, Enabled;
    HeldOnceKept(s, a);
    StepKeepsBounds(s, a);
    match a
    case TakeGrade(_) => TakingKeepsPlaces(s, a);
    case TakeSession(_, _) => TakingKeepsPlaces(s, a);
    case NothingFits(_) => TakingKeepsPlaces(s, a);
    case WatchdogLooks => TakingKeepsPlaces(s, a);
    case WatchdogKills(_) => TakingKeepsPlaces(s, a);
    case WindowEnds(_) => MovingKeepsPlaces(s, a);
    case GiveBack(_) => MovingKeepsPlaces(s, a);
    case ProcessEnds(_, _) => MovingKeepsPlaces(s, a);
    case Requeue(_) => MovingKeepsPlaces(s, a);
    case _ => WritingKeepsPlaces(s, a);
  }

  // ---- A new process ----

  lemma {:induction false} DistinctByCount(runs: seq<Rid>)
    ensures NoDuplicates(runs) <==> forall r :: multiset(runs)[r] <= 1
    decreases |runs|
  {
    if runs != [] {
      var rest := runs[..|runs| - 1];
      var last := runs[|runs| - 1];
      assert runs == rest + [last];
      DistinctByCount(rest);
      if NoDuplicates(runs) {
        assert last !in rest;
        assert multiset(rest)[last] == 0;
      }
      if forall r :: multiset(runs)[r] <= 1 {
        assert forall r :: multiset(rest)[r] <= multiset(runs)[r];
        assert multiset(rest)[last] == 0;
        assert last !in rest;
      }
    }
  }

  lemma CutFirstIsDistinct(disk: map<Rid, Meta>, runs: seq<Rid>)
    requires IsPlan(disk, runs)
    ensures NoDuplicates(CutFirst(disk, runs)) && forall r :: r in CutFirst(disk, runs) <==> r in disk
  {
    var sorted := CutFirst(disk, runs);
    DistinctByCount(runs);
    DistinctByCount(sorted);
    forall r ensures r in sorted <==> r in disk {
      assert r in sorted <==> r in multiset(sorted);
      assert r in runs <==> r in multiset(runs);
    }
  }

  ghost predicate MostCutFirst(disk: map<Rid, Meta>, sorted: seq<Rid>)
    requires forall r :: r in sorted ==> r in disk
  {
    forall i, j :: 0 <= i < j < |sorted| ==> disk[sorted[i]].windowCuts >= disk[sorted[j]].windowCuts
  }

  lemma {:induction false} InsertKeepsOrder(disk: map<Rid, Meta>, rid: Rid, sorted: seq<Rid>)
    requires rid in disk && (forall r :: r in sorted ==> r in disk) && MostCutFirst(disk, sorted)
    ensures forall r :: r in InsertByCuts(disk, rid, sorted) <==> r == rid || r in sorted
    ensures MostCutFirst(disk, InsertByCuts(disk, rid, sorted))
    decreases |sorted|
  {
    if sorted != [] && disk[rid].windowCuts < disk[sorted[0]].windowCuts {
      InsertKeepsOrder(disk, rid, sorted[1..]);
      var t := InsertByCuts(disk, rid, sorted[1..]);
      forall r | r in t ensures disk[sorted[0]].windowCuts >= disk[r].windowCuts {
        if r != rid {
          var k :| 0 <= k < |sorted[1..]| && sorted[1..][k] == r;
          assert sorted[k + 1] == r;
        }
      }
    }
  }

  /** A run the window cut more often is never queued behind one it cut less. */
  lemma {:induction false} CutRunsComeFirst(disk: map<Rid, Meta>, runs: seq<Rid>)
    requires forall r :: r in runs ==> r in disk
    ensures forall r :: r in CutFirst(disk, runs) ==> r in disk
    ensures MostCutFirst(disk, CutFirst(disk, runs))
    decreases |runs|
  {
    if runs != [] {
      CutRunsComeFirst(disk, runs[1..]);
      InsertKeepsOrder(disk, runs[0], CutFirst(disk, runs[1..]));
    }
  }

  /** The runs that were cut just so often, in order. */
  function WithCuts(disk: map<Rid, Meta>, runs: seq<Rid>, cuts: nat): seq<Rid>
    requires forall r :: r in runs ==> r in disk
  {
    if runs == [] then []
    else (if disk[runs[0]].windowCuts == cuts then [runs[0]] else []) + WithCuts(disk, runs[1..], cuts)
  }

  lemma {:induction false} InsertIsStable(disk: map<Rid, Meta>, rid: Rid, sorted: seq<Rid>, cuts: nat)
    requires rid in disk && forall r :: r in sorted ==> r in disk
    ensures forall r :: r in InsertByCuts(disk, rid, sorted) ==> r in disk
    ensures WithCuts(disk, InsertByCuts(disk, rid, sorted), cuts)
         == (if disk[rid].windowCuts == cuts then [rid] else []) + WithCuts(disk, sorted, cuts)
    decreases |sorted|
  {
    var all := InsertByCuts(disk, rid, sorted);
    if sorted == [] || disk[rid].windowCuts >= disk[sorted[0]].windowCuts {
      assert all[1..] == sorted;
    } else {
      InsertIsStable(disk, rid, sorted[1..], cuts);
      assert all[1..] == InsertByCuts(disk, rid, sorted[1..]);
    }
  }

  /** Runs that were cut equally often keep the order they came in. */
  lemma {:induction false} OrderIsStable(disk: map<Rid, Meta>, runs: seq<Rid>, cuts: nat)
    requires forall r :: r in runs ==> r in disk
    ensures forall r :: r in CutFirst(disk, runs) ==> r in disk
    ensures WithCuts(disk, CutFirst(disk, runs), cuts) == WithCuts(disk, runs, cuts)
    decreases |runs|
  {
    if runs != [] {
      OrderIsStable(disk, runs[1..], cuts);
      InsertIsStable(disk, runs[0], CutFirst(disk, runs[1..]), cuts);
    }
  }

  /** A run that memory has aborted has one attempt behind it. */
  function AttemptsOf(status: Status): nat { if status == AbortedMemory then 1 else 0 }

  /** The queue holds, once each, the runs of the list that still need a session, with the
      attempts that their states tell of. */
  ghost predicate QueuesSessions(disk: map<Rid, Meta>, runs: seq<Rid>, q: seq<Item>)
    requires forall r :: r in runs ==> r in disk
  {
    && (forall i :: 0 <= i < |q| ==>
          q[i].rid in runs && InSessionStates(disk[q[i].rid].status) && q[i].attempt == AttemptsOf(disk[q[i].rid].status))
    && (forall i, j :: 0 <= i < j < |q| ==> q[i].rid != q[j].rid)
    && (forall r :: r in runs && InSessionStates(disk[r].status) ==> exists i :: 0 <= i < |q| && q[i].rid == r)
  }

  lemma SkippedRun(disk: map<Rid, Meta>, runs: seq<Rid>, rest: seq<Item>)
    requires runs != [] && (forall r :: r in runs ==> r in disk)
    requires QueuesSessions(disk, runs[1..], rest) && !InSessionStates(disk[runs[0]].status)
    ensures QueuesSessions(disk, runs, rest)
  {
    hide InSessionStates;
    assert forall r :: r in runs <==> r == runs[0] || r in runs[1..];
  }

  lemma QueuedRun(disk: map<Rid, Meta>, runs: seq<Rid>, rest: seq<Item>, item: Item)
    requires runs != [] && (forall r :: r in runs ==> r in disk) && runs[0] !in runs[1..]
    requires QueuesSessions(disk, runs[1..], rest) && InSessionStates(disk[runs[0]].status)
    requires item.rid == runs[0] && item.attempt == AttemptsOf(disk[runs[0]].status)
    ensures QueuesSessions(disk, runs, [item] + rest)
  {
    hide InSessionStates;
    assert forall r :: r in runs <==> r == runs[0] || r in runs[1..];
    var q := [item] + rest;
    forall i | 0 <= i < |q|
      ensures q[i].rid in runs && InSessionStates(disk[q[i].rid].status)
      ensures q[i].attempt == AttemptsOf(disk[q[i].rid].status)
    {
      assert i > 0 ==> q[i] == rest[i - 1];
    }
    forall i, j | 0 <= i < j < |q| ensures q[i].rid != q[j].rid {
      assert q[j] == rest[j - 1] && rest[j - 1].rid in runs[1..];
      assert i > 0 ==> q[i] == rest[i - 1];
    }
    forall r | r in runs && InSessionStates(disk[r].status) ensures exists i :: 0 <= i < |q| && q[i].rid == r {
      if r == runs[0] {
        assert q[0].rid == r;
      } else {
        var i :| 0 <= i < |rest| && rest[i].rid == r;
        assert q[i + 1].rid == r;
      }
    }
  }

  lemma {:induction false} SessionsAreExact(disk: map<Rid, Meta>, runs: seq<Rid>)
    requires (forall r :: r in runs ==> r in disk) && NoDuplicates(runs)
    ensures QueuesSessions(disk, runs, SessionsOf(disk, runs))
    decreases |runs|
  {
    if runs != [] {
      var rest := SessionsOf(disk, runs[1..]);
      assert runs[0] !in runs[1..] && NoDuplicates(runs[1..]);
      hide QueuesSessions, InSessionStates, NoDuplicates;
      SessionsAreExact(disk, runs[1..]);
      if InSessionStates(disk[runs[0]].status) {
        var item := Item(runs[0], if disk[runs[0]].status == AbortedMemory then 1 else 0);
        assert SessionsOf(disk, runs) == [item] + rest;
        QueuedRun(disk, runs, rest, item);
      } else {
        assert SessionsOf(disk, runs) == rest;
        SkippedRun(disk, runs, rest);
      }
    }
  }

  lemma {:induction false} GradesAreExact(disk: map<Rid, Meta>, runs: seq<Rid>, regrade: bool)
    requires (forall r :: r in runs ==> r in disk) && NoDuplicates(runs)
    ensures
      var q := GradesOf(disk, runs, regrade);
      && (forall i :: 0 <= i < |q| ==>
            q[i] in runs && (InGradeStates(disk[q[i]].status) || (regrade && disk[q[i]].status == Graded)))
      && NoDuplicates(q)
      && (forall r :: r in runs && (InGradeStates(disk[r].status) || (regrade && disk[r].status == Graded)) ==> r in q)
    decreases |runs|
  {
    if runs != [] {
      GradesAreExact(disk, runs[1..], regrade);
      assert forall r :: r in runs ==> r == runs[0] || r in runs[1..];
    }
  }

  /** Must the next process take the run up again? */
  predicate Unfinished(m: Meta, regrade: bool) {
    m.status != Failed && (m.status != Graded || regrade)
  }

  ghost predicate Queued(s: State, rid: Rid) {
    exists p :: At(s, p, rid)
  }

  /** The queues of a process that has taken no step yet. */
  ghost predicate JustStarted(s: State) {
    && s.slots == [Idle, Idle] && s.starts == map[]
    && (forall i :: 0 <= i < |s.toRun| ==>
          s.toRun[i].rid in s.disk && InSessionStates(s.disk[s.toRun[i].rid].status)
          && s.toRun[i].attempt == AttemptsOf(s.disk[s.toRun[i].rid].status))
    && (forall i, j :: 0 <= i < j < |s.toRun| ==> s.toRun[i].rid != s.toRun[j].rid)
    && (forall i :: 0 <= i < |s.toGrade| ==> s.toGrade[i] in s.disk && Gradable(s, s.toGrade[i]))
    && NoDuplicates(s.toGrade)
    && (forall r :: r in s.disk && InSessionStates(s.disk[r].status) ==> exists i :: 0 <= i < |s.toRun| && s.toRun[i].rid == r)
    && (forall r :: r in s.disk && Gradable(s, r) ==> r in s.toGrade)
  }

  lemma FreshHasJustStarted(disk: map<Rid, Meta>, runs: seq<Rid>, regrade: bool)
    requires IsPlan(disk, runs)
    ensures JustStarted(Fresh(disk, runs, regrade)) && Fresh(disk, runs, regrade).disk == disk
    ensures Fresh(disk, runs, regrade).regrade == regrade
  {
    hide CutFirst, SessionsOf, GradesOf;
    CutFirstIsDistinct(disk, runs);
    SessionsAreExact(disk, CutFirst(disk, runs));
    GradesAreExact(disk, CutFirst(disk, runs), regrade);
    var s, sorted := Fresh(disk, runs, regrade), CutFirst(disk, runs);
    assert s.toRun == SessionsOf(disk, sorted) && s.toGrade == GradesOf(disk, sorted, regrade);
    assert forall r :: r in s.disk ==> r in sorted;
  }

  lemma JustStartedFits(s: State)
    requires JustStarted(s)
    ensures PlacesFit(s)
  {
  }

  lemma JustStartedHoldsOnce(s: State)
    requires JustStarted(s)
    ensures HeldOnce(s) && PlacesFit(s)
  {
    JustStartedFits(s);
    hide PlacesFit;
    forall p, q, rid | At(s, p, rid) && At(s, q, rid) ensures p == q {
      assert p.InToRun? <==> InSessionStates(s.disk[rid].status);
    }
  }

  lemma JustStartedQueuesUnfinished(s: State, r: Rid)
    requires JustStarted(s)
    ensures Queued(s, r) <==> r in s.disk && Unfinished(s.disk[r], s.regrade)
  {
    if r in s.disk && Unfinished(s.disk[r], s.regrade) {
      if InSessionStates(s.disk[r].status) {
        var i: nat :| i < |s.toRun| && s.toRun[i].rid == r;
        assert At(s, InToRun(i), r);
      } else {
        assert Gradable(s, r);
        var i: nat :| i < |s.toGrade| && s.toGrade[i] == r;
        assert At(s, InToGrade(i), r);
      }
    }
  }

  /** A new process queues each unfinished run exactly once, and nothing else. */
  lemma RestartQueuesUnfinished(disk: map<Rid, Meta>, runs: seq<Rid>, regrade: bool)
    requires IsPlan(disk, runs)
    ensures HeldOnce(Fresh(disk, runs, regrade)) && PlacesFit(Fresh(disk, runs, regrade))
    ensures forall r :: Queued(Fresh(disk, runs, regrade), r) <==> r in disk && Unfinished(disk[r], regrade)
  {
    var s := Fresh(disk, runs, regrade);
    FreshHasJustStarted(disk, runs, regrade);
    hide Fresh, HeldOnce, PlacesFit, Queued, Unfinished, JustStarted, IsPlan;
    JustStartedHoldsOnce(s);
    forall r ensures Queued(s, r) <==> r in disk && Unfinished(disk[r], regrade) {
      JustStartedQueuesUnfinished(s, r);
    }
  }

  // ---- Whole runs ----

  /** A history: each state follows from the one before by an enabled step. */
  ghost predicate IsHistory(states: seq<State>, actions: seq<Action>) {
    && |states| == |actions| + 1
    && forall i :: 0 <= i < |actions| ==> Enabled(states[i], actions[i]) && states[i + 1] == Apply(states[i], actions[i])
  }

  lemma AnyStepKeepsInv(s: State, a: Action)
    requires Inv(s) && Enabled(s, a)
    ensures Inv(Apply(s, a))
  {
    if a.Restart? {
      RestartQueuesUnfinished(s.disk, a.order, a.regradeNext);
    } else {
      StepKeepsInv(s, a);
    }
  }

  /** In every interleaving of the slots, the watchdog, the window's end and
      restarts at any point, no run is in two places, and a restart would take up
      every unfinished run exactly once. */
  lemma {:induction false} EveryStateIsSafe(states: seq<State>, actions: seq<Action>, disk: map<Rid, Meta>, runs: seq<Rid>,
                                            regrade: bool, n: nat)
    requires IsPlan(disk, runs) && forall r :: r in disk ==> disk[r] == Meta(Status.Queued, 0, 0)
    requires IsHistory(states, actions) && states[0] == Fresh(disk, runs, regrade) && n < |states|
    ensures Inv(states[n])
    ensures forall order, again :: IsPlan(states[n].disk, order) ==>
              var next := Fresh(states[n].disk, order, again);
              HeldOnce(next) && forall r :: Queued(next, r) <==> r in states[n].disk && Unfinished(states[n].disk[r], again)
  {
    hide Apply, Enabled, Inv, HeldOnce, Queued, Unfinished, Fresh, IsPlan;
    InvAlong(states, actions, disk, runs, regrade, n);
    forall order, again | IsPlan(states[n].disk, order)
      ensures
        var next := Fresh(states[n].disk, order, again);
        HeldOnce(next) && forall r :: Queued(next, r) <==> r in states[n].disk && Unfinished(states[n].disk[r], again)
    {
      RestartQueuesUnfinished(states[n].disk, order, again);
    }
  }

  lemma {:induction false} InvAlong(states: seq<State>, actions: seq<Action>, disk: map<Rid, Meta>, runs: seq<Rid>,
                                    regrade: bool, n: nat)
    requires IsPlan(disk, runs) && forall r :: r in disk ==> disk[r] == Meta(Status.Queued, 0, 0)
    requires IsHistory(states, actions) && states[0] == Fresh(disk, runs, regrade) && n < |states|
    ensures Inv(states[n])
    decreases n
  {
    if n == 0 {
      RestartQueuesUnfinished(disk, runs, regrade);
    } else {
      hide Apply, Enabled, Inv;
      InvAlong(states, actions, disk, runs, regrade, n - 1);
      AnyStepKeepsInv(states[n - 1], actions[n - 1]);
    }
  }

  /** A failed run stays failed, and a graded one stays graded unless this process regrades. */
  lemma FinalStatusIsKept(s: State, a: Action, rid: Rid)
    requires Inv(s) && Enabled(s, a) && rid in s.disk
    ensures rid in Apply(s, a).disk
    ensures s.disk[rid].status == Failed ==> Apply(s, a).disk[rid] == s.disk[rid]
    ensures s.disk[rid].status == Graded && !s.regrade ==> Apply(s, a).disk[rid] == s.disk[rid]
  {
    hide HeldOnce, ErrorsBounded, StartsBounded;
    if a.GradeDone? || a.MarkRunning? || a.CutByWindow? || a.WriteOutcome? || a.Error? {
      assert SlotFits(s, s.slots[a.slot]);
    }
  }
}

/** The scheduler object: each method is one lock-protected section or one write,
    and does to the fields what its step does to the state. */
module RunScheduler {
  import opened SchedulerSteps
  import opened SchedulerSafety
  import opened SchedulerTiming

  datatype Work = Grade(rid: Rid) | Session(item: Item) | Nothing

  class Scheduler {
    var disk: map<Rid, Meta>
    var toRun: seq<Item>
    var toGrade: seq<Rid>
    var slots: seq<Slot>
    var memoryKilled: set<Rid>
    ghost var watched: set<Rid>
    ghost var starts: map<Rid, nat>
    const regrade: bool

    ghost function View(): State
      reads this
    {
      State(disk, toRun, toGrade, slots, memoryKilled, watched, regrade, starts)
    }

    constructor (disk: map<Rid, Meta>, runs: seq<Rid>, regrade: bool)
      requires IsPlan(disk, runs)
      ensures View() == Fresh(disk, runs, regrade)
    {
      CutFirstIsDistinct(disk, runs);
      var run, grade := Enqueue(disk, CutFirst(disk, runs), regrade);
      this.disk, this.regrade := disk, regrade;
      toRun, toGrade, slots, memoryKilled := run, grade, [Idle, Idle], {};
      watched, starts := {}, map[];
    }

    predicate SessionFits(item: Item, deadline: Deadline, now: real)
      reads this
    {
      item.rid in disk && Fits(deadline, now, LaunchNeed(disk[item.rid].windowCuts))
    }

    /** A run to grade first, else the first queued session that fits the window. Each test
        reads the clock again: reading 0 is for grading, reading i + 1 for the i-th session. */
    method NextItem(w: nat, noGrade: bool, deadline: Deadline, clock: nat -> real) returns (work: Work)
      requires Inv(View()) && w < |slots| && slots[w].Idle?
      modifies this`toRun, this`toGrade, this`slots
      ensures Inv(View())
      ensures work.Grade? <==> old(toGrade) != [] && !noGrade && Fits(deadline, clock(0), GRADE_SECS)
      ensures work.Grade? ==> work.rid == old(toGrade[0]) && View() == Apply(old(View()), TakeGrade(w))
      ensures work.Session? ==>
                exists i :: 0 <= i < |old(toRun)| && work.item == old(toRun)[i] && old(SessionFits(toRun[i], deadline, clock(i + 1)))
                            && (forall k :: 0 <= k < i ==> !old(SessionFits(toRun[k], deadline, clock(k + 1))))
                            && View() == Apply(old(View()), TakeSession(w, i))
      ensures work.Nothing? ==> View() == Apply(old(View()), NothingFits(w))
                                && forall k :: 0 <= k < |old(toRun)| ==> !old(SessionFits(toRun[k], deadline, clock(k + 1)))
    {
      hide Inv;
      ghost var s := View();
      if toGrade != [] && !noGrade && Fits(deadline, clock(0), GRADE_SECS) {
        work := Grade(toGrade[0]);
        slots := slots[w := Grading(toGrade[0])];
        toGrade := toGrade[1..];
        StepKeepsInv(s, TakeGrade(w));
        return;
      }
      for i := 0 to |toRun|
        invariant View() == s
        invariant forall k :: 0 <= k < i ==> !old(SessionFits(toRun[k], deadline, clock(k + 1)))
      {
        var item := toRun[i];
        if SessionFits(item, deadline, clock(i + 1)) {
          work := Session(item);
          slots := slots[w := Launching(item.rid, item.attempt)];
          toRun := toRun[..i] + toRun[i + 1..];
          StepKeepsInv(s, TakeSession(w, i));
          return;
        }
      }
      work := Nothing;
      slots := slots[w := Stopped];
      StepKeepsInv(s, NothingFits(w));
    }

    method WriteStatus(rid: Rid, status: Status)
      modifies this`disk
      ensures disk == SetStatus(old(disk), rid, status)
    {
      if rid in disk {
        disk := disk[rid := disk[rid].(status := status)];
      }
    }

    /** A launch the disk, memory or the window refused: its run goes back first. */
    method ReturnToQueue(w: nat)
      requires Inv(View()) && Enabled(View(), GiveBack(w))
      modifies this
      ensures Inv(View()) && View() == Apply(old(View()), GiveBack(w))
    {
      hide Inv;
      StepKeepsInv(View(), GiveBack(w));
      toRun := [Item(slots[w].rid, slots[w].attempt)] + toRun;
      slots := slots[w := Stopped];
    }

    method StartSession(w: nat)
      requires Inv(View()) && Enabled(View(), MarkRunning(w))
      modifies this
      ensures Inv(View()) && View() == Apply(old(View()), MarkRunning(w))
    {
      hide Inv;
      StepKeepsInv(View(), MarkRunning(w));
      var slot := slots[w];
      WriteStatus(slot.rid, Running);
      starts := starts[slot.rid := Starts(View(), slot.rid) + 1];
      slots := slots[w := InSession(slot.rid, slot.attempt)];
    }

    /** The session is over: why, in the order the code asks. */
    method EndSession(w: nat, cutByWindow: bool, timedOut: bool)
      requires Inv(View()) && w < |slots| && slots[w].InSession?
      modifies this
      ensures Inv(View())
      ensures View() == Apply(old(View()), if cutByWindow then CutByWindow(w) else ProcessEnds(w, timedOut))
    {
      hide Inv;
      var slot := slots[w];
      StepKeepsInv(View(), if cutByWindow then CutByWindow(w) else ProcessEnds(w, timedOut));
      if cutByWindow {
        if slot.rid in disk {
          disk := disk[slot.rid := disk[slot.rid].(windowCuts := disk[slot.rid].windowCuts + 1)];
        }
        slots := slots[w := Ended(slot.rid, slot.attempt, Queued)];
      } else if slot.rid in memoryKilled {
        memoryKilled := memoryKilled - {slot.rid};
        slots := slots[w := Ended(slot.rid, slot.attempt, AbortedMemory)];
      } else {
        slots := slots[w := Ended(slot.rid, slot.attempt, if timedOut then Status.TimedOut else Finished)];
        assert memoryKilled == memoryKilled - {slot.rid};
      }
    }

    method RecordOutcome(w: nat)
      requires Inv(View()) && Enabled(View(), WriteOutcome(w))
      modifies this
      ensures Inv(View()) && View() == Apply(old(View()), WriteOutcome(w))
    {
      hide Inv;
      StepKeepsInv(View(), WriteOutcome(w));
      var slot := slots[w];
      WriteStatus(slot.rid, slot.outcome);
      slots := slots[w := Settled(slot.rid, slot.attempt, slot.outcome)];
    }

    /** Queue what follows: a second attempt after a memory kill, or the grading. */
    method QueueFollowUp(w: nat)
      requires Inv(View()) && Enabled(View(), Requeue(w))
      modifies this
      ensures Inv(View()) && View() == Apply(old(View()), Requeue(w))
    {
      hide Inv;
      StepKeepsInv(View(), Requeue(w));
      var slot := slots[w];
      if slot.outcome == AbortedMemory && slot.attempt == 0 {
        toRun := toRun + [Item(slot.rid, 1)];
      } else if InGradeStates(slot.outcome) {
        toGrade := toGrade + [slot.rid];
      }
      slots := slots[w := Idle];
      assert old(toRun) + [] == old(toRun) && old(toGrade) + [] == old(toGrade);
    }

    method FinishGrade(w: nat)
      requires Inv(View()) && Enabled(View(), GradeDone(w))
      modifies this
      ensures Inv(View()) && View() == Apply(old(View()), GradeDone(w))
    {
      hide Inv;
      StepKeepsInv(View(), GradeDone(w));
      WriteStatus(slots[w].rid, Graded);
      slots := slots[w := Idle];
    }

    /** Any other exception: count it, and retry next time from the step that failed. */
    method RecordError(w: nat)
      requires Inv(View()) && Enabled(View(), Error(w))
      modifies this
      ensures Inv(View()) && View() == Apply(old(View()), Error(w))
    {
      hide Inv;
      StepKeepsInv(View(), Error(w));
      var rid := slots[w].rid;
      var errors := disk[rid].errors + 1;
      var retry := if slots[w].Grading? then Finished else Queued;
      disk := disk[rid := disk[rid].(status := if errors >= MAX_ERRORS then Failed else retry, errors := errors)];
      slots := slots[w := Idle];
    }
  }

  /** The constructor's loop over the runs. */
  method Enqueue(disk: map<Rid, Meta>, runs: seq<Rid>, regrade: bool) returns (toRun: seq<Item>, toGrade: seq<Rid>)
    requires forall r :: r in runs ==> r in disk
    ensures toRun == SessionsOf(disk, runs) && toGrade == GradesOf(disk, runs, regrade)
  {
    hide SessionsOf, GradesOf;
    toRun, toGrade := [], [];
    assert runs[0..] == runs && runs[|runs|..] == [];
    for i := 0 to |runs|
      invariant toRun + SessionsOf(disk, runs[i..]) == SessionsOf(disk, runs)
      invariant toGrade + GradesOf(disk, runs[i..], regrade) == GradesOf(disk, runs, regrade)
    {
      var status := disk[runs[i]].status;
      QueuesOfRest(disk, runs, i, regrade);
      if InSessionStates(status) {
        toRun := toRun + [Item(runs[i], if status == AbortedMemory then 1 else 0)];
      } else if InGradeStates(status) || (regrade && status == Graded) {
        toGrade := toGrade + [runs[i]];
      }
    }
    QueuesOfNothing(disk, regrade);
  }

  lemma QueuesOfRest(disk: map<Rid, Meta>, runs: seq<Rid>, i: nat, regrade: bool)
    requires (forall r :: r in runs ==> r in disk) && i < |runs|
    ensures
      var status := disk[runs[i]].status;
      && SessionsOf(disk, runs[i..])
         == (if InSessionStates(status) then [Item(runs[i], if status == AbortedMemory then 1 else 0)] else [])
            + SessionsOf(disk, runs[i + 1..])
      && GradesOf(disk, runs[i..], regrade)
         == (if InGradeStates(status) || (regrade && status == Graded) then [runs[i]] else [])
            + GradesOf(disk, runs[i + 1..], regrade)
  {
    assert runs[i..][1..] == runs[i + 1..];
  }

  lemma QueuesOfNothing(disk: map<Rid, Meta>, regrade: bool)
    ensures SessionsOf(disk, []) == [] && GradesOf(disk, [], regrade) == []
  {
  }
}
