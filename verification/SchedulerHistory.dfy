/** What the disk and the queues of scripts/eval-comments/harness.py tell of the history
    that led to them, across any number of processes. */
module SchedulerHistory {
  import opened Wrappers
  import opened SchedulerSteps
  import opened SchedulerSafety
  import opened SchedulerTiming

  /** The slot that takes the step, when one does. */
  function ActsIn(a: Action): Option<nat> {
    match a
    case WatchdogLooks => None
    case WatchdogKills(_) => None
    case Restart(_, _) => None
    case _ => Some(a.slot)
  }

  /** The step is taken by the slot that holds the run. */
  predicate IsOf(s: State, a: Action, rid: Rid) {
    var w := ActsIn(a);
    w.Some? && w.value < |s.slots| && Holds(s.slots[w.value]) && s.slots[w.value].rid == rid
  }

  predicate IsCutOf(s: State, a: Action, rid: Rid) { a.CutByWindow? && IsOf(s, a, rid) }

  predicate IsErrorOf(s: State, a: Action, rid: Rid) { a.Error? && IsOf(s, a, rid) }

  /** How often the window cut the run in the first `n` steps. */
  function Cuts(states: seq<State>, actions: seq<Action>, rid: Rid, n: nat): nat
    requires n <= |actions| <= |states|
  {
    if n == 0 then 0
    else Cuts(states, actions, rid, n - 1) + if IsCutOf(states[n - 1], actions[n - 1], rid) then 1 else 0
  }

  function Errors(states: seq<State>, actions: seq<Action>, rid: Rid, n: nat): nat
    requires n <= |actions| <= |states|
  {
    if n == 0 then 0
    else Errors(states, actions, rid, n - 1) + if IsErrorOf(states[n - 1], actions[n - 1], rid) then 1 else 0
  }

  /** The state a step writes for the run, when it writes one. `errors` counts the run's
      errors before the step. */
  function Writes(s: State, a: Action, rid: Rid, errors: nat): Option<Status> {
    if !IsOf(s, a, rid) then None
    else
      match a
      case MarkRunning(_) => Some(Status.Running)
      case GradeDone(_) => Some(Graded)
      case WriteOutcome(w) => if s.slots[w].Ended? then Some(s.slots[w].outcome) else None
      case Error(w) => Some(if errors + 1 >= 3 then Failed else if s.slots[w].Grading? then Finished else Status.Queued)
      case _ => None
  }

  /** The state that was written last. */
  function LastWritten(states: seq<State>, actions: seq<Action>, rid: Rid, n: nat): Option<Status>
    requires n <= |actions| <= |states| && (n > 0 ==> rid in states[0].disk)
  {
    if n == 0 then None
    else
      var written := Writes(states[n - 1], actions[n - 1], rid,
                            states[0].disk[rid].errors + Errors(states, actions, rid, n - 1));
      if written.Some? then written else LastWritten(states, actions, rid, n - 1)
  }

  /** The run's record on disk is its first one, its cuts and errors counted on, and the
      state that was written last. */
  ghost predicate DiskTells(states: seq<State>, actions: seq<Action>, rid: Rid, n: nat)
    requires n <= |actions| < |states|
  {
    rid in states[0].disk && rid in states[n].disk
    && var (first, now) := (states[0].disk[rid], states[n].disk[rid]);
       && now.windowCuts == first.windowCuts + Cuts(states, actions, rid, n)
       && now.errors == first.errors + Errors(states, actions, rid, n)
       && now.status == var last := LastWritten(states, actions, rid, n); if last.Some? then last.value else first.status
  }

  lemma StepOnDisk(s: State, a: Action, rid: Rid)
    requires Inv(s) && Enabled(s, a) && rid in s.disk
    ensures
      var (now, next) := (s.disk[rid], Apply(s, a).disk);
      && rid in next
      && next[rid].windowCuts == now.windowCuts + (if IsCutOf(s, a, rid) then 1 else 0)
      && next[rid].errors == now.errors + (if IsErrorOf(s, a, rid) then 1 else 0)
      && next[rid].status == var w := Writes(s, a, rid, now.errors); if w.Some? then w.value else now.status
  {
    hide HeldOnce, ErrorsBounded, StartsBounded;
    if ActsIn(a).Some? && Holds(s.slots[a.slot]) {
      assert SlotFits(s, s.slots[a.slot]);
    }
  }

  lemma {:induction false} InvFrom(states: seq<State>, actions: seq<Action>, n: nat)
    requires IsHistory(states, actions) && Inv(states[0]) && n < |states|
    ensures Inv(states[n])
    decreases n
  {
    if n > 0 {
      hide Apply, Enabled, Inv;
      InvFrom(states, actions, n - 1);
      AnyStepKeepsInv(states[n - 1], actions[n - 1]);
    }
  }

  /** Along every history, with restarts at any step: each cut and each error is counted, and
      the state on disk is the one that was written last. */
  lemma {:induction false} DiskTellsTheHistory(states: seq<State>, actions: seq<Action>, rid: Rid, n: nat)
    requires IsHistory(states, actions) && Inv(states[0]) && n < |states| && rid in states[0].disk
    ensures DiskTells(states, actions, rid, n)
    decreases n
  {
    hide Apply, Enabled, Inv, IsCutOf, IsErrorOf, Writes;
    if n > 0 {
      DiskTellsTheHistory(states, actions, rid, n - 1);
      InvFrom(states, actions, n - 1);
      StepOnDisk(states[n - 1], actions[n - 1], rid);
    }
  }

  // ---- How a session ends ----

  /** No step of the slot, and no restart, lies between. */
  ghost predicate Undisturbed(actions: seq<Action>, w: nat, i: nat, j: nat) {
    forall k :: i < k < j && k < |actions| ==> ActsIn(actions[k]) != Some(w) && !actions[k].Restart?
  }

  lemma {:induction false} SlotStays(states: seq<State>, actions: seq<Action>, w: nat, i: nat, j: nat)
    requires IsHistory(states, actions) && i < j <= |actions| && Undisturbed(actions, w, i, j)
    requires w < |states[i + 1].slots|
    ensures |states[j].slots| == |states[i + 1].slots| && states[j].slots[w] == states[i + 1].slots[w]
    decreases j
  {
    if i + 1 < j {
      SlotStays(states, actions, w, i, j - 1);
      hide Undisturbed, Enabled;
      assert ActsIn(actions[j - 1]) != Some(w) && !actions[j - 1].Restart? by {
        UndisturbedAt(actions, w, i, j, j - 1);
      }
      assert Enabled(states[j - 1], actions[j - 1]);
      OtherSlotsStay(states[j - 1], actions[j - 1], w);
    }
  }

  lemma UndisturbedAt(actions: seq<Action>, w: nat, i: nat, j: nat, k: nat)
    requires Undisturbed(actions, w, i, j) && i < k < j && k < |actions|
    ensures ActsIn(actions[k]) != Some(w) && !actions[k].Restart?
  {
  }

  lemma OtherSlotsStay(s: State, a: Action, w: nat)
    requires Enabled(s, a) && ActsIn(a) != Some(w) && !a.Restart? && w < |s.slots|
    ensures |Apply(s, a).slots| == |s.slots| && Apply(s, a).slots[w] == s.slots[w]
  {
  }

  /** Why a session ended: the window's cut comes first, then a kill for memory, then the cap. */
  function OutcomeAt(s: State, a: Action, rid: Rid): Status {
    if a.CutByWindow? then Status.Queued
    else if rid in s.memoryKilled then AbortedMemory
    else if a.ProcessEnds? && a.timedOut then Status.TimedOut
    else Finished
  }

  /** From the end of a session to its follow-up, whatever the other slot and the watchdog do
      meanwhile: what is written, and what is queued. */
  lemma SessionIsRecorded(states: seq<State>, actions: seq<Action>, w: nat, i: nat, j: nat, m: nat)
    requires IsHistory(states, actions) && Inv(states[0]) && i < j < m < |actions|
    requires actions[i] == CutByWindow(w) || actions[i] == ProcessEnds(w, true) || actions[i] == ProcessEnds(w, false)
    requires actions[j] == WriteOutcome(w) && actions[m] == Requeue(w)
    requires Undisturbed(actions, w, i, j) && Undisturbed(actions, w, j, m)
    ensures w < |states[i].slots| && states[i].slots[w].InSession?
    ensures
      var (rid, attempt) := (states[i].slots[w].rid, states[i].slots[w].attempt);
      var outcome := OutcomeAt(states[i], actions[i], rid);
      && (actions[i].ProcessEnds? ==> rid !in states[i + 1].memoryKilled)
      && rid in states[j + 1].disk && states[j + 1].disk[rid].status == outcome
      && states[m + 1].toRun
         == states[m].toRun + (if outcome == AbortedMemory && attempt == 0 then [Item(rid, 1)] else [])
      && states[m + 1].toGrade
         == states[m].toGrade + (if outcome == Finished || outcome == Status.TimedOut then [rid] else [])
      && states[m + 1].slots[w] == Idle
  {
    InvFrom(states, actions, i);
    InvFrom(states, actions, j);
    SessionEnds(states[i], actions[i], w);
    SlotStays(states, actions, w, i, j);
    OutcomeIsWritten(states[j], w);
    SlotStays(states, actions, w, j, m);
    FollowUpIsQueued(states[m], w);
  }

  lemma SessionEnds(s: State, a: Action, w: nat)
    requires Enabled(s, a) && (a == CutByWindow(w) || a == ProcessEnds(w, true) || a == ProcessEnds(w, false))
    ensures w < |s.slots| && s.slots[w].InSession? && |Apply(s, a).slots| == |s.slots|
    ensures
      var (rid, attempt) := (s.slots[w].rid, s.slots[w].attempt);
      && Apply(s, a).slots[w] == Ended(rid, attempt, OutcomeAt(s, a, rid))
      && (a.ProcessEnds? ==> rid !in Apply(s, a).memoryKilled)
  {
  }

  lemma OutcomeIsWritten(s: State, w: nat)
    requires Inv(s) && Enabled(s, WriteOutcome(w))
    ensures
      var (slot, t) := (s.slots[w], Apply(s, WriteOutcome(w)));
      && |t.slots| == |s.slots| && t.slots[w] == Settled(slot.rid, slot.attempt, slot.outcome)
      && slot.rid in t.disk && t.disk[slot.rid].status == slot.outcome
  {
    assert SlotFits(s, s.slots[w]);
  }

  lemma FollowUpIsQueued(s: State, w: nat)
    requires Enabled(s, Requeue(w))
    ensures
      var (slot, t) := (s.slots[w], Apply(s, Requeue(w)));
      && t.toRun == s.toRun + (if slot.outcome == AbortedMemory && slot.attempt == 0 then [Item(slot.rid, 1)] else [])
      && t.toGrade
         == s.toGrade + (if slot.outcome == Finished || slot.outcome == Status.TimedOut then [slot.rid] else [])
      && w < |t.slots| && t.slots[w] == Idle
  {
  }

  /** A run counts as killed for memory exactly from the watchdog's kill to the end of its
      process, within one run of the scheduler. */
  function Killed(states: seq<State>, actions: seq<Action>, rid: Rid, n: nat): bool
    requires n <= |actions| <= |states|
  {
    n > 0
    && match actions[n - 1]
       case WatchdogKills(r) => r == rid || Killed(states, actions, rid, n - 1)
       case Restart(_, _) => false
       case ProcessEnds(_, _) => !IsOf(states[n - 1], actions[n - 1], rid) && Killed(states, actions, rid, n - 1)
       case _ => Killed(states, actions, rid, n - 1)
  }

  lemma {:induction false} KilledExactly(states: seq<State>, actions: seq<Action>, rid: Rid, n: nat)
    requires IsHistory(states, actions) && states[0].memoryKilled == {} && n < |states|
    ensures rid in states[n].memoryKilled <==> Killed(states, actions, rid, n)
    decreases n
  {
    if n > 0 {
      KilledExactly(states, actions, rid, n - 1);
    }
  }

  /** How often this process has started a session for the run. */
  function Launches(states: seq<State>, actions: seq<Action>, rid: Rid, n: nat): nat
    requires n <= |actions| <= |states|
  {
    if n == 0 || actions[n - 1].Restart? then 0
    else
      Launches(states, actions, rid, n - 1)
      + if actions[n - 1].MarkRunning? && IsOf(states[n - 1], actions[n - 1], rid) then 1 else 0
  }

  lemma {:induction false} LaunchesAreCounted(states: seq<State>, actions: seq<Action>, rid: Rid, n: nat)
    requires IsHistory(states, actions) && states[0].starts == map[] && n < |states|
    ensures Starts(states[n], rid) == Launches(states, actions, rid, n)
    decreases n
  {
    if n > 0 {
      LaunchesAreCounted(states, actions, rid, n - 1);
      StepCountsLaunches(states[n - 1], actions[n - 1], rid);
    }
  }

  lemma StepCountsLaunches(s: State, a: Action, rid: Rid)
    requires Enabled(s, a)
    ensures Starts(Apply(s, a), rid)
         == if a.Restart? then 0 else Starts(s, rid) + if a.MarkRunning? && IsOf(s, a, rid) then 1 else 0
  {
  }

  /** A process starts no run more than twice. */
  lemma StartedAtMostTwice(states: seq<State>, actions: seq<Action>, rid: Rid, n: nat)
    requires IsHistory(states, actions) && Inv(states[0]) && states[0].starts == map[] && n < |states|
    ensures Launches(states, actions, rid, n) <= 2
  {
    InvFrom(states, actions, n);
    LaunchesAreCounted(states, actions, rid, n);
  }

  // ---- No run is lost ----

  /** The step gives the run up for this process: an error, the window's end, a cut, a second
      kill for memory, or its grading. */
  predicate LetsGo(s: State, a: Action, rid: Rid) {
    IsOf(s, a, rid)
    && match a
       case Error(_) => true
       case WindowEnds(_) => true
       case GradeDone(_) => true
       case Requeue(w) =>
         s.slots[w].Settled?
         && (s.slots[w].outcome == Status.Queued || (s.slots[w].outcome == AbortedMemory && s.slots[w].attempt > 0))
       case _ => false
  }

  /** Where a run goes from its place, when the step does not give it up. */
  function GoesTo(s: State, a: Action, p: Place): Place {
    match (a, p)
    case (TakeGrade(w), InToGrade(i)) => if i == 0 then InSlot(w) else InToGrade(i - 1)
    case (TakeSession(w, n), InToRun(i)) => if i == n then InSlot(w) else if i < n then p else InToRun(i - 1)
    case (GiveBack(w), InToRun(i)) => InToRun(i + 1)
    case (GiveBack(w), InSlot(i)) => if i == w then InToRun(0) else p
    case (Requeue(w), InSlot(i)) =>
      if i != w then p
      else if w < |s.slots| && s.slots[w].Settled? && s.slots[w].outcome == AbortedMemory then InToRun(|s.toRun|)
      else InToGrade(|s.toGrade|)
    case _ => p
  }

  lemma QueuedStaysHeld(s: State, a: Action, p: Place, rid: Rid)
    requires Enabled(s, a) && !a.Restart? && At(s, p, rid) && !p.InSlot?
    ensures At(Apply(s, a), GoesTo(s, a, p), rid)
  {
    hide SetStatus, InGradeStates;
  }

  lemma SlottedStaysHeld(s: State, a: Action, p: Place, rid: Rid)
    requires PlacesFit(s) && Enabled(s, a) && !a.Restart? && At(s, p, rid) && p.InSlot? && !LetsGo(s, a, rid)
    ensures At(Apply(s, a), GoesTo(s, a, p), rid)
  {
    assert SlotFits(s, s.slots[p.index]);
    hide PlacesFit, SetStatus;
  }

  lemma StepKeepsHold(s: State, a: Action, p: Place, rid: Rid)
    requires Inv(s) && Enabled(s, a) && !a.Restart? && At(s, p, rid) && !LetsGo(s, a, rid)
    ensures exists q :: At(Apply(s, a), q, rid)
  {
    hide HeldOnce, ErrorsBounded, StartsBounded, PlacesFit, Apply, Enabled, LetsGo, GoesTo;
    if p.InSlot? {
      SlottedStaysHeld(s, a, p, rid);
    } else {
      QueuedStaysHeld(s, a, p, rid);
    }
    assert At(Apply(s, a), GoesTo(s, a, p), rid);
  }

  lemma UnheldIsUntouched(s: State, a: Action, rid: Rid)
    requires Inv(s) && Enabled(s, a) && !a.Restart? && rid in s.disk && !SchedulerSafety.Queued(s, rid)
    ensures rid in Apply(s, a).disk && Apply(s, a).disk[rid] == s.disk[rid]
  {
    if ActsIn(a).Some? && a.slot < |s.slots| && Holds(s.slots[a.slot]) {
      assert At(s, InSlot(a.slot), s.slots[a.slot].rid);
    }
  }

  lemma RegradeStays(s: State, a: Action)
    requires Enabled(s, a) && !a.Restart?
    ensures Apply(s, a).regrade == s.regrade
  {
  }

  /** The step gave the run up, and no new process has started since. */
  ghost predicate GivenUpAt(states: seq<State>, actions: seq<Action>, rid: Rid, n: nat, k: nat)
    requires n <= |actions| <= |states|
  {
    k < n && LetsGo(states[k], actions[k], rid) && forall m :: k < m < n ==> !actions[m].Restart?
  }

  /** In every history, an unfinished run that is in no queue and no slot was given up in this
      process, by one of those steps. */
  lemma {:induction false} NothingIsLost(states: seq<State>, actions: seq<Action>, disk: map<Rid, Meta>, runs: seq<Rid>,
                                         regrade: bool, rid: Rid, n: nat)
    requires IsPlan(disk, runs) && IsHistory(states, actions) && Inv(states[0]) && states[0] == Fresh(disk, runs, regrade)
    requires n < |states| && rid in states[n].disk
    requires Unfinished(states[n].disk[rid], states[n].regrade) && !SchedulerSafety.Queued(states[n], rid)
    ensures exists k: nat :: GivenUpAt(states, actions, rid, n, k)
    decreases n
  {
    hide Apply, Enabled, Inv, SchedulerSafety.Queued, Unfinished, Fresh, IsPlan, LetsGo, HeldOnce, PlacesFit;
    if n == 0 {
      RestartQueuesUnfinished(disk, runs, regrade);
      FreshHasJustStarted(disk, runs, regrade);
      assert false;
    } else {
      var s, a := states[n - 1], actions[n - 1];
      InvFrom(states, actions, n - 1);
      if a.Restart? {
        RestartedIsQueued(s, a, rid);
        assert false;
      } else if SchedulerSafety.Queued(s, rid) {
        GivenUpNow(s, a, rid);
        assert GivenUpAt(states, actions, rid, n, n - 1);
      } else {
        DiskKeepsItsRuns(s, a, rid);
        UnheldIsUntouched(s, a, rid);
        RegradeStays(s, a);
        NothingIsLost(states, actions, disk, runs, regrade, rid, n - 1);
        var k: nat :| GivenUpAt(states, actions, rid, n - 1, k);
        assert GivenUpAt(states, actions, rid, n, k);
      }
    }
  }

  lemma DiskKeepsItsRuns(s: State, a: Action, rid: Rid)
    requires Inv(s) && Enabled(s, a) && rid in Apply(s, a).disk
    ensures rid in s.disk
  {
    hide HeldOnce, ErrorsBounded, StartsBounded;
    if ActsIn(a).Some? && Holds(s.slots[a.slot]) {
      assert SlotFits(s, s.slots[a.slot]);
    }
  }

  lemma RestartedIsQueued(s: State, a: Action, rid: Rid)
    requires a.Restart? && Enabled(s, a) && rid in Apply(s, a).disk
    requires Unfinished(Apply(s, a).disk[rid], Apply(s, a).regrade)
    ensures SchedulerSafety.Queued(Apply(s, a), rid)
  {
    hide SchedulerSafety.Queued, Unfinished, Fresh, HeldOnce, PlacesFit;
    RestartQueuesUnfinished(s.disk, a.order, a.regradeNext);
    FreshHasJustStarted(s.disk, a.order, a.regradeNext);
  }

  lemma GivenUpNow(s: State, a: Action, rid: Rid)
    requires Inv(s) && Enabled(s, a) && !a.Restart?
    requires SchedulerSafety.Queued(s, rid) && !SchedulerSafety.Queued(Apply(s, a), rid)
    ensures LetsGo(s, a, rid)
  {
    hide Inv, Apply, Enabled, LetsGo;
    var p :| At(s, p, rid);
    if !LetsGo(s, a, rid) {
      StepKeepsHold(s, a, p, rid);
    }
  }

  // ---- Cut once, not cut again ----

  /** The window cut the run at step `i`; at state `n`, in whatever process, its session passes
      the last launch check at `checked`, and begins within `delay` of it. */
  ghost predicate RelaunchedOnceCut(states: seq<State>, actions: seq<Action>, rid: Rid, i: nat, n: nat, deadline: Deadline,
                                    checked: real, started: real, delay: real) {
    && IsHistory(states, actions) && Inv(states[0]) && i < n < |states|
    && IsCutOf(states[i], actions[i], rid) && rid in states[n].disk
    && Fits(deadline, checked, LaunchNeed(states[n].disk[rid].windowCuts) - 60.0)
    && checked <= started <= checked + delay
  }

  lemma CutIsRemembered(states: seq<State>, actions: seq<Action>, rid: Rid, i: nat, n: nat)
    requires IsHistory(states, actions) && Inv(states[0]) && i < n < |states| && IsCutOf(states[i], actions[i], rid)
    ensures rid in states[0].disk && rid in states[n].disk && states[n].disk[rid].windowCuts > 0
    ensures LaunchNeed(states[n].disk[rid].windowCuts) == 2880.0
  {
    hide Apply, Enabled, Inv, IsCutOf;
    CutRunIsOnDisk(states, actions, rid, i);
    DiskTellsTheHistory(states, actions, rid, n);
    CutsGrow(states, actions, rid, i + 1, n);
  }

  lemma {:induction false} CutsGrow(states: seq<State>, actions: seq<Action>, rid: Rid, i: nat, n: nat)
    requires i <= n <= |actions| <= |states|
    ensures Cuts(states, actions, rid, i) <= Cuts(states, actions, rid, n)
    decreases n
  {
    if i < n {
      CutsGrow(states, actions, rid, i, n - 1);
    }
  }

  lemma {:induction false} DiskKeepsAllRuns(states: seq<State>, actions: seq<Action>, rid: Rid, n: nat)
    requires IsHistory(states, actions) && Inv(states[0]) && n < |states| && rid in states[n].disk
    ensures rid in states[0].disk
    decreases n
  {
    hide Apply, Enabled, Inv;
    if n > 0 {
      InvFrom(states, actions, n - 1);
      DiskKeepsItsRuns(states[n - 1], actions[n - 1], rid);
      DiskKeepsAllRuns(states, actions, rid, n - 1);
    }
  }

  lemma CutRunIsOnDisk(states: seq<State>, actions: seq<Action>, rid: Rid, i: nat)
    requires IsHistory(states, actions) && Inv(states[0]) && i < |actions| && IsCutOf(states[i], actions[i], rid)
    ensures rid in states[0].disk
  {
    InvFrom(states, actions, i);
    assert SlotFits(states[i], states[i].slots[actions[i].slot]);
    DiskKeepsAllRuns(states, actions, rid, i);
  }

  /** Is no run that the window once cut ever cut again, when it is relaunched this slowly and
      polled this slowly? */
  ghost predicate NoSecondCut(delay: real, gap: real) {
    forall states: seq<State>, actions: seq<Action>, rid: Rid, i: nat, n: nat, deadline: Deadline, checked, started, polls ::
      RelaunchedOnceCut(states, actions, rid, i, n, deadline, checked, started, delay) && ReadsWithin(polls, gap)
      ==> OutcomeOf(polls, started, deadline) != Cut
  }

  /** Over all histories with a cut in them, however many processes lie between it and the
      relaunch: no second cut, exactly when making the sandbox and the pause between the two
      clock readings together take at most 30 seconds. */
  lemma NoSecondCutExactly(delay: real, gap: real)
    requires delay >= 0.0 && gap >= 0.0
    ensures NoSecondCut(delay, gap) <==> delay + gap <= 30.0
  {
    hide IsHistory, Inv, IsCutOf, OutcomeOf, ReadsWithin, LaunchNeed;
    if delay + gap <= 30.0 {
      forall states: seq<State>, actions: seq<Action>, rid: Rid, i: nat, n: nat, deadline: Deadline, checked, started, polls
        | RelaunchedOnceCut(states, actions, rid, i, n, deadline, checked, started, delay) && ReadsWithin(polls, gap)
        ensures OutcomeOf(polls, started, deadline) != Cut
      {
        CutIsRemembered(states, actions, rid, i, n);
        EnoughRoomIsNeverCut(polls, deadline, checked, started, delay, gap, states[n].disk[rid].windowCuts);
      }
    } else {
      var states, actions := ACut();
      var deadline: Deadline, polls := SecondCut(delay, gap);
      CutIsRemembered(states, actions, 0, 2, 3);
      assert RelaunchedOnceCut(states, actions, 0, 2, 3, deadline, 0.0, delay, delay);
    }
  }

  /** The session of `NeverCutAgainExactly`. */
  lemma SecondCut(delay: real, gap: real) returns (deadline: Deadline, polls: seq<Poll>)
    requires delay >= 0.0 && gap >= 0.0 && delay + gap > 30.0
    ensures Fits(deadline, 0.0, 2820.0) && ReadsWithin(polls, gap) && OutcomeOf(polls, delay, deadline) == Cut
  {
    deadline := Some(CAP_SECS + 120.0);
    polls := [Poll(true, delay + CAP_SECS, delay + CAP_SECS + gap)];
  }

  lemma OneRunIsFine(s: State)
    requires s == State(map[0 := Meta(Status.Queued, 0, 0)], [Item(0, 0)], [], [Idle, Idle], {}, {}, false, map[])
    ensures Inv(s)
  {
  }

  function OneTaken(s: State): State { s.(toRun := [], slots := [Launching(0, 0), Idle]) }

  function OneStarted(s: State): State {
    s.(toRun := [], slots := [InSession(0, 0), Idle], disk := map[0 := Meta(Status.Running, 0, 0)], starts := map[0 := 1])
  }

  function OneCut(s: State): State {
    OneStarted(s).(slots := [Ended(0, 0, Status.Queued), Idle], disk := map[0 := Meta(Status.Running, 1, 0)])
  }

  lemma CutSteps(s: State)
    requires s == State(map[0 := Meta(Status.Queued, 0, 0)], [Item(0, 0)], [], [Idle, Idle], {}, {}, false, map[])
    ensures Enabled(s, TakeSession(0, 0)) && Apply(s, TakeSession(0, 0)) == OneTaken(s)
    ensures Enabled(OneTaken(s), MarkRunning(0)) && Apply(OneTaken(s), MarkRunning(0)) == OneStarted(s)
    ensures Enabled(OneStarted(s), CutByWindow(0)) && Apply(OneStarted(s), CutByWindow(0)) == OneCut(s)
    ensures IsCutOf(OneStarted(s), CutByWindow(0), 0)
  {
  }

  /** One run, taken, started, and cut. */
  lemma ACut() returns (states: seq<State>, actions: seq<Action>)
    ensures IsHistory(states, actions) && Inv(states[0]) && |states| == 4 && IsCutOf(states[2], actions[2], 0)
  {
    var s0 := State(map[0 := Meta(Status.Queued, 0, 0)], [Item(0, 0)], [], [Idle, Idle], {}, {}, false, map[]);
    OneRunIsFine(s0);
    hide Inv;
    var s1, s2, s3 := OneTaken(s0), OneStarted(s0), OneCut(s0);
    states, actions := [s0, s1, s2, s3], [TakeSession(0, 0), MarkRunning(0), CutByWindow(0)];
    CutSteps(s0);
    hide OneTaken, OneStarted, OneCut, Apply, Enabled;
  }
}
