/** The wall-clock side of the scheduler in scripts/eval-comments/harness.py: when a
    step fits the window, and who gets cut. */
module SchedulerTiming {
  import opened Wrappers

  const CAP_SECS := 2700.0
  const GRADE_SECS := 900.0
  const LAUNCH_MIN_SECS := 1320.0
  const LAUNCH_STAGGER_SECS := 45.0

  /** A window's end, when it has one. */
  type Deadline = Option<real>

  predicate Fits(deadline: Deadline, now: real, secs: real) {
    deadline.None? || deadline.value - now >= secs
  }

  /** A run the window cut before must get its full cap. */
  function LaunchNeed(windowCuts: nat): real {
    if windowCuts > 0 then CAP_SECS + 180.0 else LAUNCH_MIN_SECS
  }

  /** A grading fits while 15 minutes are left, a first session while 22 are, and one that the
      window has cut before while 48 are; with no deadline everything fits. */
  lemma WhatFits(end: real, now: real, windowCuts: nat)
    ensures Fits(Some(end), now, GRADE_SECS) <==> end - now >= 900.0
    ensures Fits(Some(end), now, LaunchNeed(windowCuts)) <==> end - now >= if windowCuts == 0 then 1320.0 else 2880.0
    ensures Fits(None, now, GRADE_SECS) && Fits(None, now, LaunchNeed(windowCuts))
  {
  }

  /** One turn of the session's poll loop: is the process alive, and what the
      clock says when the cap, and then the window, is asked about. */
  datatype Poll = Poll(alive: bool, capClock: real, windowClock: real)

  datatype Outcome = Exited | TimedOut | Cut | StillRunning

  function OutcomeOf(polls: seq<Poll>, started: real, deadline: Deadline): Outcome {
    if polls == [] then StillRunning
    else if !polls[0].alive then Exited
    else if polls[0].capClock - started > CAP_SECS then TimedOut
    else if !Fits(deadline, polls[0].windowClock, 90.0) then Cut
    else OutcomeOf(polls[1..], started, deadline)
  }

  method PollSession(polls: seq<Poll>, started: real, deadline: Deadline) returns (outcome: Outcome)
    ensures outcome == OutcomeOf(polls, started, deadline)
  {
    assert polls[0..] == polls;
    for i := 0 to |polls|
      invariant OutcomeOf(polls[i..], started, deadline) == OutcomeOf(polls, started, deadline)
    {
      assert polls[i..][1..] == polls[i + 1..];
      if !polls[i].alive {
        return Exited;
      }
      if polls[i].capClock - started > CAP_SECS {
        return TimedOut;
      }
      if !Fits(deadline, polls[i].windowClock, 90.0) {
        return Cut;
      }
    }
    return StillRunning;
  }

  /** The first turn that ends the session decides how: the process is gone; else the cap is
      passed, for which 45 minutes must have gone by; else less than 90 seconds are left. */
  ghost predicate DecidedAt(polls: seq<Poll>, started: real, deadline: Deadline, k: nat, outcome: Outcome) {
    k < |polls|
    && (forall j :: 0 <= j < k ==> GoesOn(polls[j], started, deadline))
    && match outcome
       case Exited => !polls[k].alive
       case TimedOut => polls[k].alive && polls[k].capClock > started + 2700.0
       case Cut =>
         polls[k].alive && polls[k].capClock <= started + 2700.0
         && deadline.Some? && polls[k].windowClock > deadline.value - 90.0
       case StillRunning => false
  }

  predicate GoesOn(p: Poll, started: real, deadline: Deadline) {
    p.alive && p.capClock <= started + 2700.0 && (deadline.Some? ==> p.windowClock <= deadline.value - 90.0)
  }

  lemma {:induction false} OutcomeIsExact(polls: seq<Poll>, started: real, deadline: Deadline)
    ensures
      var outcome := OutcomeOf(polls, started, deadline);
      if outcome == StillRunning then forall j :: 0 <= j < |polls| ==> GoesOn(polls[j], started, deadline)
      else exists k: nat :: DecidedAt(polls, started, deadline, k, outcome)
    decreases |polls|
  {
    if polls != [] {
      if GoesOn(polls[0], started, deadline) {
        OutcomeIsExact(polls[1..], started, deadline);
        if OutcomeOf(polls, started, deadline) != StillRunning {
          var k: nat :| DecidedAt(polls[1..], started, deadline, k, OutcomeOf(polls, started, deadline));
          assert forall j :: 0 < j < k + 1 ==> polls[j] == polls[1..][j - 1];
          assert DecidedAt(polls, started, deadline, k + 1, OutcomeOf(polls, started, deadline));
        } else {
          assert forall j :: 0 < j < |polls| ==> polls[j] == polls[1..][j - 1];
        }
      } else {
        assert DecidedAt(polls, started, deadline, 0, OutcomeOf(polls, started, deadline));
      }
    }
  }

  /** The clock is read twice a turn, the second time at most `gap` later. */
  ghost predicate ReadsWithin(polls: seq<Poll>, gap: real) {
    forall i :: 0 <= i < |polls| ==> polls[i].capClock <= polls[i].windowClock <= polls[i].capClock + gap
  }

  /** A session launched after an earlier cut: it passed the last launch check at
      `checked`, and began within `delay` of it. */
  ghost predicate RelaunchedAfterCut(deadline: Deadline, checked: real, started: real, delay: real, windowCuts: nat) {
    windowCuts > 0 && Fits(deadline, checked, LaunchNeed(windowCuts) - 60.0) && checked <= started <= checked + delay
  }

  lemma {:induction false} EnoughRoomIsNeverCut(polls: seq<Poll>, deadline: Deadline, checked: real, started: real,
                                                delay: real, gap: real, windowCuts: nat)
    requires RelaunchedAfterCut(deadline, checked, started, delay, windowCuts)
    requires ReadsWithin(polls, gap) && delay + gap <= 30.0
    ensures OutcomeOf(polls, started, deadline) != Cut
    decreases |polls|
  {
    if polls != [] {
      assert polls[0].capClock <= polls[0].windowClock <= polls[0].capClock + gap;
      EnoughRoomIsNeverCut(polls[1..], deadline, checked, started, delay, gap, windowCuts);
    }
  }

  /** Is no session that is relaunched this slowly, and polled this slowly, ever cut? */
  ghost predicate NeverCutAgain(delay: real, gap: real) {
    forall polls, deadline: Deadline, checked, started, windowCuts: nat ::
      RelaunchedAfterCut(deadline, checked, started, delay, windowCuts) && ReadsWithin(polls, gap)
      ==> OutcomeOf(polls, started, deadline) != Cut
  }

  /** A run is safe from a second cut exactly when making its sandbox and the pause
      between the two clock readings together take at most 30 seconds. */
  lemma NeverCutAgainExactly(delay: real, gap: real)
    requires delay >= 0.0 && gap >= 0.0
    ensures NeverCutAgain(delay, gap) <==> delay + gap <= 30.0
  {
    if delay + gap <= 30.0 {
      forall polls, deadline: Deadline, checked, started, windowCuts: nat
        | RelaunchedAfterCut(deadline, checked, started, delay, windowCuts) && ReadsWithin(polls, gap)
        ensures OutcomeOf(polls, started, deadline) != Cut
      {
        EnoughRoomIsNeverCut(polls, deadline, checked, started, delay, gap, windowCuts);
      }
    } else {
      var deadline: Deadline := Some(CAP_SECS + 120.0);
      var last := Poll(true, delay + CAP_SECS, delay + CAP_SECS + gap);
      assert RelaunchedAfterCut(deadline, 0.0, delay, delay, 1);
      assert ReadsWithin([last], gap);
      assert OutcomeOf([last], delay, deadline) == Cut;
    }
  }

  // ---- Staggered launches ----

  function Max(a: real, b: real): real {
    if a < b then b else a
  }

  /** One slot reserving its launch, under the lock: how long it pauses, and the
      reservation it leaves behind. */
  method Reserve(lastLaunch: real, pauseClock: real, reserveClock: real) returns (pause: real, reserved: real)
    ensures Reservations(lastLaunch, [reserveClock]) == [reserved]
    ensures pauseClock + Max(pause, 0.0) >= lastLaunch + LAUNCH_STAGGER_SECS
  {
    pause := lastLaunch + LAUNCH_STAGGER_SECS - pauseClock;
    reserved := Max(reserveClock, lastLaunch + LAUNCH_STAGGER_SECS);
  }

  /** The reservations that the clock readings `clocks` lead to, from `last` on. */
  function Reservations(last: real, clocks: seq<real>): seq<real>
    decreases |clocks|
  {
    if clocks == [] then []
    else
      var reserved := Max(clocks[0], last + LAUNCH_STAGGER_SECS);
      [reserved] + Reservations(reserved, clocks[1..])
  }

  /** No launch waits longer than it must: it is reserved for the moment it asks, or for 45
      seconds after the one before it. */
  lemma {:induction false} ReservationsAreTight(last: real, clocks: seq<real>, i: nat)
    requires i < |clocks|
    ensures |Reservations(last, clocks)| == |clocks|
    ensures
      var (before, now) := (if i == 0 then last else Reservations(last, clocks)[i - 1], Reservations(last, clocks)[i]);
      now >= clocks[i] && now >= before + 45.0 && (now == clocks[i] || now == before + 45.0)
    decreases |clocks|
  {
    var first := Max(clocks[0], last + LAUNCH_STAGGER_SECS);
    ReservationsPast(last, clocks, i);
    if i > 0 {
      ReservationsAreTight(first, clocks[1..], i - 1);
    }
  }

  /** Any two launches are as many stagger intervals apart as there are launches between. */
  lemma {:induction false} LaunchesAreStaggered(last: real, clocks: seq<real>, i: nat, j: nat)
    requires i < j < |clocks|
    ensures |Reservations(last, clocks)| == |clocks|
    ensures Reservations(last, clocks)[j] - Reservations(last, clocks)[i] >= (j - i) as real * LAUNCH_STAGGER_SECS
    ensures Reservations(last, clocks)[i] >= last + (i + 1) as real * LAUNCH_STAGGER_SECS
    decreases |clocks|
  {
    var first := Max(clocks[0], last + LAUNCH_STAGGER_SECS);
    ReservationsPast(first, clocks[1..], j - 1);
    if i > 0 {
      LaunchesAreStaggered(first, clocks[1..], i - 1, j - 1);
    }
  }

  lemma {:induction false} ReservationsPast(last: real, clocks: seq<real>, j: nat)
    requires j < |clocks|
    ensures |Reservations(last, clocks)| == |clocks|
    ensures Reservations(last, clocks)[j] >= last + (j + 1) as real * LAUNCH_STAGGER_SECS
    decreases |clocks|
  {
    if j > 0 {
      ReservationsPast(Max(clocks[0], last + LAUNCH_STAGGER_SECS), clocks[1..], j - 1);
    } else if |clocks| > 1 {
      ReservationsPast(Max(clocks[0], last + LAUNCH_STAGGER_SECS), clocks[1..], 0);
    }
  }
}
