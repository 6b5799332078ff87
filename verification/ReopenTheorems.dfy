/** Reopening is complete and idempotent, and touches no window it need not touch. */
module ReopenTheorems {
  import opened Wrappers
  import opened WindowTarget
  import opened WindowSession
  import opened WindowPlans

  lemma {:induction false} InsertMembers(w: LiveWindow, ordered: seq<LiveWindow>)
    ensures forall x :: x in Insert(w, ordered) <==> x == w || x in ordered
    decreases |ordered|
  {
    if ordered != [] && Before(ordered[0].name, w.name) {
      InsertMembers(w, ordered[1..]);
    }
  }

  lemma {:induction false} OrderedMembers(live: seq<LiveWindow>)
    ensures forall x :: x in Ordered(live) <==> x in live
    decreases |live|
  {
    if live != [] {
      OrderedMembers(live[1..]);
      InsertMembers(live[0], Ordered(live[1..]));
    }
  }

  lemma {:induction false} LexIsOneWay(a: string, b: string)
    ensures !(LexLess(a, b) && LexLess(b, a))
    decreases |a|
  {
    if a != "" && b != "" {
      LexIsOneWay(a[1..], b[1..]);
    }
  }

  /** At the first place where they differ, the first name has the smaller character, or ends. */
  ghost predicate ComesFirst(a: string, b: string) {
    exists k: nat :: DifferAt(a, b, k)
  }

  ghost predicate DifferAt(a: string, b: string, k: nat) {
    && k <= |a| && k < |b| && (forall i :: 0 <= i < k ==> a[i] == b[i])
    && (k == |a| || a[k] < b[k])
  }

  lemma {:induction false} LexIsExact(a: string, b: string)
    ensures LexLess(a, b) <==> ComesFirst(a, b)
    decreases |a|
  {
    if b == "" {
    } else if a == "" || a[0] < b[0] {
      assert DifferAt(a, b, 0);
    } else if a[0] == b[0] {
      LexIsExact(a[1..], b[1..]);
      if k: nat :| DifferAt(a[1..], b[1..], k) {
        assert forall i :: 0 < i < k + 1 ==> a[i] == a[1..][i - 1] && b[i] == b[1..][i - 1];
        assert DifferAt(a, b, k + 1);
      }
      if k: nat :| DifferAt(a, b, k) {
        assert k > 0;
        assert DifferAt(a[1..], b[1..], k - 1);
      }
    }
  }

  /** `main` goes before any other window, and the others by name. */
  ghost predicate GoesBefore(a: string, b: string) {
    (a == "main" && b != "main") || ((a == "main" <==> b == "main") && ComesFirst(a, b))
  }

  /** In the order of showing, no window stands after one it goes before. */
  ghost predicate InOrder(ordered: seq<LiveWindow>) {
    forall i :: 0 < i < |ordered| ==> !Before(ordered[i].name, ordered[i - 1].name)
  }

  lemma {:induction false} InsertInOrder(w: LiveWindow, ordered: seq<LiveWindow>)
    requires InOrder(ordered)
    ensures InOrder(Insert(w, ordered))
    ensures Insert(w, ordered)[0] == w || (ordered != [] && Insert(w, ordered)[0] == ordered[0])
    decreases |ordered|
  {
    hide LexLess;
    if ordered != [] && Before(ordered[0].name, w.name) {
      assert forall i :: 0 < i < |ordered[1..]| ==> ordered[1..][i] == ordered[i + 1] && ordered[1..][i - 1] == ordered[i];
      InsertInOrder(w, ordered[1..]);
      LexIsOneWay(w.name, ordered[0].name);
      var rest := Insert(w, ordered[1..]);
      var r := [ordered[0]] + rest;
      forall i | 0 < i < |r| ensures !Before(r[i].name, r[i - 1].name) {
        if i > 1 {
          assert !Before(rest[i - 1].name, rest[i - 2].name);
        }
      }
    }
  }

  /** The windows are shown, and one is fronted, in the code's order: `main`, then by name. */
  lemma {:induction false} OrderedIsInOrder(live: seq<LiveWindow>)
    ensures InOrder(Ordered(live))
    ensures forall i :: 0 < i < |Ordered(live)| ==> !GoesBefore(Ordered(live)[i].name, Ordered(live)[i - 1].name)
    decreases |live|
  {
    if live != [] {
      OrderedIsInOrder(live[1..]);
      InsertInOrder(live[0], Ordered(live[1..]));
    }
    hide Ordered;
    forall i | 0 < i < |Ordered(live)| ensures !GoesBefore(Ordered(live)[i].name, Ordered(live)[i - 1].name) {
      LexIsExact(Ordered(live)[i].name, Ordered(live)[i - 1].name);
    }
  }

  lemma {:induction false} HiddenMembers(ordered: seq<LiveWindow>)
    ensures forall w :: w in ordered && !w.visible ==> w.name in Hidden(ordered)
    ensures forall n :: n in Hidden(ordered) ==> exists w :: w in ordered && !w.visible && w.name == n
    decreases |ordered|
  {
    if ordered != [] {
      HiddenMembers(ordered[1..]);
    }
  }

  /** The windows a plan shows are exactly those that are hidden. */
  lemma ShowIsWhatIsHidden(live: seq<LiveWindow>, session: Session, origin: string)
    ensures forall n :: n in ReopenPlanOf(live, session, origin).show
                        <==> exists w :: w in live && !w.visible && w.name == n
  {
    hide Ordered, Hidden;
    OrderedMembers(live);
    HiddenMembers(Ordered(live));
  }

  lemma {:induction false} VisibleAreNotHidden(ordered: seq<LiveWindow>)
    requires forall w :: w in ordered ==> w.visible
    ensures Hidden(ordered) == []
    decreases |ordered|
  {
    if ordered != [] {
      VisibleAreNotHidden(ordered[1..]);
    }
  }

  lemma NothingToShow(live: seq<LiveWindow>)
    requires forall i :: 0 <= i < |live| ==> live[i].visible
    ensures Hidden(Ordered(live)) == []
  {
    hide Ordered, Hidden;
    OrderedMembers(live);
    VisibleAreNotHidden(Ordered(live));
  }

  lemma {:induction false} OwedMembers(plan: seq<RestoredWindow>, live: seq<LiveWindow>)
    ensures forall w :: w in OwedOf(plan, live) <==> w in plan && IsOwed(live, w)
    decreases |plan|
  {
    hide IsOwed;
    if plan != [] {
      OwedMembers(plan[..|plan| - 1], live);
    }
  }

  lemma {:induction false} RecordedMainIs(plan: seq<RestoredWindow>, live: seq<LiveWindow>)
    ensures RecordedMain(plan, live).Some? <==> Worn(live, MAIN) && exists w :: w in plan && w.recorded == Some(MAIN)
    ensures RecordedMain(plan, live).Some? ==> RecordedMain(plan, live).value in plan
    decreases |plan|
  {
    hide Worn;
    if plan != [] {
      RecordedMainIs(plan[..|plan| - 1], live);
      var last := plan[|plan| - 1];
      assert forall w :: w in plan <==> w == last || w in plan[..|plan| - 1];
    }
  }

  /** The entries owed keep the record's order, so their names still differ. */
  lemma {:induction false} OwedNamesDiffer(plan: seq<RestoredWindow>, live: seq<LiveWindow>)
    requires NamesDiffer(plan)
    ensures NamesDiffer(OwedOf(plan, live))
    decreases |plan|
  {
    hide IsOwed;
    if plan != [] {
      var init, last := plan[..|plan| - 1], plan[|plan| - 1];
      assert NamesDiffer(init);
      OwedNamesDiffer(init, live);
      OwedMembers(init, live);
      var owed := OwedOf(init, live);
      forall i | 0 <= i < |owed| && owed[i].recorded.Some? ensures owed[i].recorded != last.recorded {
        assert owed[i] in init;
        var k :| 0 <= k < |init| && init[k] == owed[i];
        assert plan[k] == owed[i];
      }
    }
  }

  // ---- What building does ----

  /** Windows that may be built under the names they are recorded with. */
  ghost predicate Buildable(live: seq<LiveWindow>, build: seq<PlannedWindow>, minted: seq<string>) {
    && |minted| == |build|
    && (forall k :: 0 <= k < |build| && build[k].recorded.Some? ==>
          var n := build[k].recorded.value; n != MAIN && IsRestorableName(n) && !Worn(live, n) && n !in minted)
    && (forall k :: 0 <= k < |build| ==> minted[k] != MAIN && !Worn(live, minted[k]))
    && (forall i, j :: 0 <= i < j < |build| && build[i].recorded.Some? ==> build[i].recorded != build[j].recorded)
    && (forall i, j :: 0 <= i < j < |build| ==> minted[i] != minted[j])
  }

  function NewName(p: PlannedWindow, name: string): string {
    if p.recorded.Some? then p.recorded.value else name
  }

  lemma WornAppend(live: seq<LiveWindow>, w: LiveWindow, n: string)
    ensures Worn(live + [w], n) <==> Worn(live, n) || w.name == n
  {
    if Worn(live, n) {
      var i :| 0 <= i < |live| && live[i].name == n;
      assert (live + [w])[i].name == n;
    }
    assert (live + [w])[|live|] == w;
  }

  lemma BuildableTail(live: seq<LiveWindow>, build: seq<PlannedWindow>, minted: seq<string>, w: LiveWindow)
    requires Buildable(live, build, minted) && build != [] && w.name == NewName(build[0], minted[0])
    ensures Buildable(live + [w], build[1..], minted[1..])
  {
    hide IsRestorableName, Worn;
    forall k | 0 <= k < |build[1..]| && build[1..][k].recorded.Some?
      ensures !Worn(live + [w], build[1..][k].recorded.value) && build[1..][k].recorded.value !in minted[1..]
    {
      WornAppend(live, w, build[k + 1].recorded.value);
      assert build[0].recorded.Some? ==> build[0].recorded != build[k + 1].recorded;
      assert minted[0] in minted;
    }
    forall k | 0 <= k < |build[1..]| ensures !Worn(live + [w], minted[1..][k]) {
      WornAppend(live, w, minted[k + 1]);
      assert minted[k + 1] in minted;
    }
  }

  /** Building adds one visible window per planned one, under its recorded name
      where it has one, and leaves the others alone. */
  lemma {:induction false} BuiltShape(live: seq<LiveWindow>, build: seq<PlannedWindow>, minted: seq<string>)
    requires Buildable(live, build, minted)
    ensures
      var r := Built(live, build, minted);
      && |r| == |live| + |build|
      && (forall i :: 0 <= i < |live| ==> r[i] == live[i])
      && (forall k :: 0 <= k < |build| ==>
            r[|live| + k] == LiveWindow(NewName(build[k], minted[k]), build[k].url, true))
    decreases |build|
  {
    hide IsRestorableName, Buildable, Worn;
    if build != [] {
      FirstName(live, build, minted);
      var w := LiveWindow(NewName(build[0], minted[0]), build[0].url, true);
      BuildableTail(live, build, minted, w);
      BuiltShape(live + [w], build[1..], minted[1..]);
      var r := Built(live, build, minted);
      forall k | 0 <= k < |build| ensures r[|live| + k] == LiveWindow(NewName(build[k], minted[k]), build[k].url, true) {
        if k > 0 {
          assert r[|live + [w]| + (k - 1)]
              == LiveWindow(NewName(build[1..][k - 1], minted[1..][k - 1]), build[1..][k - 1].url, true);
        } else {
          assert r[|live|] == (live + [w])[|live|];
        }
      }
      forall i | 0 <= i < |live| ensures r[i] == live[i] {
        assert (live + [w])[i] == live[i];
      }
    }
  }

  lemma FirstName(live: seq<LiveWindow>, build: seq<PlannedWindow>, minted: seq<string>)
    requires Buildable(live, build, minted) && build != []
    ensures |minted| == |build|
    ensures NameForNewWindow(live, build[0].recorded, minted[0]) == NewName(build[0], minted[0])
  {
    hide IsRestorableName, Worn;
  }

  // ---- The plan's pieces ----

  /** What a plan makes of the record: the entry `main` takes, and those it builds. */
  ghost predicate Split(live: seq<LiveWindow>, plan: seq<RestoredWindow>, target: Option<RestoredWindow>, left: seq<RestoredWindow>) {
    && (forall w :: w in left ==> w in plan && IsOwed(live, w))
    && (forall w :: w in plan && IsOwed(live, w) ==> w in left || target == Some(w))
    && NamesDiffer(left)
    && (target.Some? ==> target.value in plan && target.value.MainMayTake() && Adrift(live))
    && (target.None? && Adrift(live) ==> forall w :: w in plan ==> w.recorded != Some(MAIN) && (w in left ==> !w.MainMayTake()))
    && (forall w :: w in left && Worn(live, MAIN) ==> w.recorded != Some(MAIN))
  }

  /** What an adrift `main` takes of the entries the plan owes, and what it leaves. */
  lemma OwedSplits(live: seq<LiveWindow>, plan: seq<RestoredWindow>)
    returns (target: Option<RestoredWindow>, left: seq<RestoredWindow>)
    requires NamesDiffer(plan)
    ensures Split(live, plan, target, left)
    ensures
      var owed := OwedOf(plan, live);
      var recorded, k := RecordedMain(plan, live), FirstTakeable(owed);
      && target == (if !Adrift(live) then None else if recorded.Some? then recorded
                    else if k < |owed| then Some(owed[k]) else None)
      && left == if Adrift(live) && recorded.None? && k < |owed| then owed[..k] + owed[k + 1..] else owed
  {
    hide IsOwed, OwedOf, RecordedMain, Worn, WindowWorkspace, Adrift;
    AdriftHasMain(live);
    var owed := OwedOf(plan, live);
    OwedMembers(plan, live);
    OwedNamesDiffer(plan, live);
    RecordedMainIs(plan, live);
    MainIsNotOwed(plan, live);
    var recorded, k := RecordedMain(plan, live), FirstTakeable(owed);
    if !Adrift(live) {
      target, left := None, owed;
    } else if recorded.Some? {
      RecordedMainIsMain(plan, live);
      target, left := recorded, owed;
    } else if k < |owed| {
      target, left := Some(owed[k]), owed[..k] + owed[k + 1..];
      WithoutOne(owed, k);
    } else {
      target, left := None, owed;
    }
  }

  lemma AdriftHasMain(live: seq<LiveWindow>)
    ensures Adrift(live) ==> Worn(live, MAIN)
  {
    hide WindowWorkspace;
  }

  lemma PlanSplits(live: seq<LiveWindow>, session: Session, origin: string)
    returns (target: Option<RestoredWindow>, left: seq<RestoredWindow>)
    ensures Split(live, if Booting(live) then [] else RestorePlan(session), target, left)
    ensures
      var p := ReopenPlanOf(live, session, origin);
      && p.build == AllPlanned(origin, left)
      && (p.navigateMain.Some? <==> target.Some?)
      && (target.Some? ==> p.navigateMain
                           == Some(PlannedWindow(WorkspaceUrl(origin, target.value.workspace), None, target.value.frame)))
  {
    hide Hidden, Ordered, RestorePlan, OwedOf, RecordedMain, WorkspaceUrl, AllPlanned, Split, Adrift, Booting, NamesDiffer,
         FirstTakeable;
    RestorePlanIsValid(session);
    var plan := if Booting(live) then [] else RestorePlan(session);
    PlanNamesDiffer(session, plan);
    target, left := OwedSplits(live, plan);
  }

  /** The window to build for an entry: on its workspace, at its frame, and under its name unless
      it was `main`, whose name cannot be given again. */
  ghost predicate BuildsFor(p: PlannedWindow, w: RestoredWindow, origin: string) {
    && p.url == WorkspaceUrl(origin, w.workspace) && p.frame == w.frame
    && p.recorded == if w.recorded == Some(MAIN) then None else w.recorded
  }

  /** Each window a reopen builds is for an owed entry of the record, and `main` is pointed where
      an entry that it may take stood, with that entry's frame. */
  lemma PlanFollowsTheRecord(live: seq<LiveWindow>, session: Session, origin: string)
    ensures
      var plan := ReopenPlanOf(live, session, origin);
      && (forall i :: 0 <= i < |plan.build| ==>
            exists w :: w in RestorePlan(session) && IsOwed(live, w) && BuildsFor(plan.build[i], w, origin))
      && (plan.navigateMain.Some? ==>
            exists w :: w in RestorePlan(session) && w.MainMayTake()
                        && plan.navigateMain.value == PlannedWindow(WorkspaceUrl(origin, w.workspace), None, w.frame))
  {
    hide RestorePlan, WorkspaceUrl, IsOwed, Booting, Adrift, ReopenPlanOf, NamesDiffer, Worn;
    var target, left := PlanSplits(live, session, origin);
    var plan := ReopenPlanOf(live, session, origin);
    forall i | 0 <= i < |plan.build|
      ensures exists w :: w in RestorePlan(session) && IsOwed(live, w) && BuildsFor(plan.build[i], w, origin)
    {
      assert left[i] in left && plan.build[i] == Planned(origin, left[i]);
      assert BuildsFor(plan.build[i], left[i], origin);
    }
    if plan.navigateMain.Some? {
      assert target.value in RestorePlan(session);
    }
  }

  lemma PlanNamesDiffer(session: Session, plan: seq<RestoredWindow>)
    requires plan == [] || plan == RestorePlan(session)
    ensures NamesDiffer(plan)
  {
    hide RestorePlan;
    RestorePlanIsValid(session);
  }

  lemma {:induction false} RecordedMainIsMain(plan: seq<RestoredWindow>, live: seq<LiveWindow>)
    requires RecordedMain(plan, live).Some?
    ensures RecordedMain(plan, live).value.recorded == Some(MAIN)
    decreases |plan|
  {
    if plan[|plan| - 1].recorded != Some(MAIN) {
      RecordedMainIsMain(plan[..|plan| - 1], live);
    }
  }

  lemma MainIsNotOwed(plan: seq<RestoredWindow>, live: seq<LiveWindow>)
    ensures forall w :: w in OwedOf(plan, live) && Worn(live, MAIN) ==> w.recorded != Some(MAIN)
  {
    OwedMembers(plan, live);
  }

  lemma WithoutOne(owed: seq<RestoredWindow>, k: nat)
    requires k < |owed| && NamesDiffer(owed)
    ensures NamesDiffer(owed[..k] + owed[k + 1..])
    ensures forall w :: w in owed ==> w == owed[k] || w in owed[..k] + owed[k + 1..]
    ensures forall w :: w in owed[..k] + owed[k + 1..] ==> w in owed
  {
    var rest := owed[..k] + owed[k + 1..];
    forall w | w in owed ensures w == owed[k] || w in rest {
      var i :| 0 <= i < |owed| && owed[i] == w;
      if i < k {
        assert rest[i] == w;
      } else if i > k {
        assert rest[i - 1] == w;
      }
    }
  }

  // ---- After a reopen ----

  /** The record and the minted names are as a reopen finds them. */
  ghost predicate ReadyToReopen(live: seq<LiveWindow>, session: Session, origin: string, minted: seq<string>) {
    && IsOrigin(origin)
    && |minted| == |ReopenPlanOf(live, session, origin).build|
    && AreFresh(minted, live, RestorePlan(session))
  }

  lemma LeftIsBuildable(live: seq<LiveWindow>, plan: seq<RestoredWindow>, target: Option<RestoredWindow>,
                        left: seq<RestoredWindow>, minted: seq<string>, k: nat)
    requires IsRestorePlan(plan) && Split(live, plan, target, left) && AreFresh(minted, live, plan)
    requires k < |left| && left[k].recorded.Some? && left[k].recorded != Some(MAIN)
    ensures
      var n := left[k].recorded.value;
      IsRestorableName(n) && !Worn(live, n) && n !in minted
  {
    hide Worn, IsRestorableName, Adrift, IsWorkspaceRoute;
    var w := left[k];
    assert w in left && w in plan && IsOwed(live, w);
    forall i | 0 <= i < |minted| ensures minted[i] != w.recorded.value {
      assert w.recorded != Some(minted[i]);
    }
  }

  lemma PlanIsBuildable(live: seq<LiveWindow>, plan: seq<RestoredWindow>, target: Option<RestoredWindow>,
                        left: seq<RestoredWindow>, origin: string, minted: seq<string>, now: seq<LiveWindow>)
    requires IsRestorePlan(plan) && Split(live, plan, target, left)
    requires |minted| == |left| && AreFresh(minted, live, plan)
    requires forall n :: Worn(now, n) <==> Worn(live, n)
    ensures Buildable(now, AllPlanned(origin, left), minted)
  {
    var build := AllPlanned(origin, left);
    assert NamesDiffer(left);
    hide Worn, IsRestorableName, WorkspaceUrl, Split, IsRestorePlan, AllPlanned;
    forall k | 0 <= k < |build| && build[k].recorded.Some?
      ensures
        var n := build[k].recorded.value; n != MAIN && IsRestorableName(n) && !Worn(now, n) && n !in minted
    {
      LeftIsBuildable(live, plan, target, left, minted, k);
    }
    forall i, j | 0 <= i < j < |build| && build[i].recorded.Some? ensures build[i].recorded != build[j].recorded {
      assert left[i].recorded != left[j].recorded;
    }
  }

  /** The windows before the building: `main` pointed somewhere, the hidden shown. */
  function Prepared(live: seq<LiveWindow>, plan: ReopenPlan): seq<LiveWindow> {
    Shown(if plan.navigateMain.Some? then Navigated(live, plan.navigateMain.value.url) else live, plan.show)
  }

  lemma PreparedShape(live: seq<LiveWindow>, session: Session, origin: string)
    ensures
      var (plan, now) := (ReopenPlanOf(live, session, origin), Prepared(live, ReopenPlanOf(live, session, origin)));
      && |now| == |live|
      && (forall i :: 0 <= i < |live| ==>
            && now[i].name == live[i].name && now[i].visible
            && now[i].url == if plan.navigateMain.Some? && live[i].name == MAIN then plan.navigateMain.value.url else live[i].url)
      && (forall n :: Worn(now, n) <==> Worn(live, n))
  {
    ShowIsWhatIsHidden(live, session, origin);
    hide ReopenPlanOf;
    var plan, now := ReopenPlanOf(live, session, origin), Prepared(live, ReopenPlanOf(live, session, origin));
    forall i | 0 <= i < |live| ensures now[i].visible {
      if !live[i].visible {
        assert live[i] in live;
      }
    }
  }

  /** The windows after a reopen: those there were, `main` pointed at its target
      where it has one, then one window for each entry left to build. */
  ghost predicate Outcome(live: seq<LiveWindow>, origin: string, target: Option<RestoredWindow>, left: seq<RestoredWindow>,
                          after: seq<LiveWindow>)
  {
    |after| == |live| + |left| && OldOnes(live, origin, target, after) && NewOnes(|live|, origin, left, after)
  }

  ghost predicate OldOnes(live: seq<LiveWindow>, origin: string, target: Option<RestoredWindow>, after: seq<LiveWindow>)
    requires |live| <= |after|
  {
    forall i :: 0 <= i < |live| ==>
      && after[i].name == live[i].name && after[i].visible
      && after[i].url == (if target.Some? && live[i].name == MAIN
                          then WorkspaceUrl(origin, target.value.workspace) else live[i].url)
  }

  ghost predicate NewOnes(n: nat, origin: string, left: seq<RestoredWindow>, after: seq<LiveWindow>)
    requires |after| == n + |left|
  {
    forall i :: n <= i < |after| ==>
      var w := left[i - n];
      && after[i].url == WorkspaceUrl(origin, w.workspace) && after[i].name != MAIN && after[i].visible
      && (w.recorded.Some? && w.recorded != Some(MAIN) ==> after[i].name == w.recorded.value)
  }

  lemma Assemble(live: seq<LiveWindow>, origin: string, target: Option<RestoredWindow>, left: seq<RestoredWindow>,
                 now: seq<LiveWindow>, build: seq<PlannedWindow>, minted: seq<string>)
    requires build == AllPlanned(origin, left) && Buildable(now, build, minted)
    requires |now| == |live| && OldOnes(live, origin, target, now)
    ensures |minted| == |build| && Outcome(live, origin, target, left, Built(now, build, minted))
  {
    BuiltLength(now, build, minted);
    AssembleNew(now, origin, left, minted);
    hide Buildable, Built, AllPlanned, WorkspaceUrl, NewOnes;
    var after := Built(now, build, minted);
    forall i | 0 <= i < |live| ensures after[i] == now[i] {
      BuiltOld(now, build, minted, i);
    }
  }

  lemma AssembleNew(now: seq<LiveWindow>, origin: string, left: seq<RestoredWindow>, minted: seq<string>)
    requires Buildable(now, AllPlanned(origin, left), minted)
    ensures |minted| == |left| && |Built(now, AllPlanned(origin, left), minted)| == |now| + |left|
    ensures NewOnes(|now|, origin, left, Built(now, AllPlanned(origin, left), minted))
  {
    var build := AllPlanned(origin, left);
    BuiltLength(now, build, minted);
    hide Buildable, Built, AllPlanned, WorkspaceUrl;
    var after := Built(now, build, minted);
    forall i | |now| <= i < |after|
      ensures
        var w := left[i - |now|];
        && after[i].url == WorkspaceUrl(origin, w.workspace) && after[i].name != MAIN && after[i].visible
        && (w.recorded.Some? && w.recorded != Some(MAIN) ==> after[i].name == w.recorded.value)
    {
      BuiltNew(now, build, minted, i);
      assert build[i - |now|] == Planned(origin, left[i - |now|]);
    }
  }

  lemma BuiltLength(now: seq<LiveWindow>, build: seq<PlannedWindow>, minted: seq<string>)
    requires Buildable(now, build, minted)
    ensures |minted| == |build| && |Built(now, build, minted)| == |now| + |build|
  {
    BuiltShape(now, build, minted);
  }

  lemma BuiltOld(now: seq<LiveWindow>, build: seq<PlannedWindow>, minted: seq<string>, i: nat)
    requires Buildable(now, build, minted) && i < |now|
    ensures |Built(now, build, minted)| == |now| + |build| && Built(now, build, minted)[i] == now[i]
  {
    BuiltShape(now, build, minted);
  }

  lemma BuiltNew(now: seq<LiveWindow>, build: seq<PlannedWindow>, minted: seq<string>, i: nat)
    requires Buildable(now, build, minted) && |now| <= i < |now| + |build|
    ensures |minted| == |build| && |Built(now, build, minted)| == |now| + |build|
    ensures
      var (w, p) := (Built(now, build, minted)[i], build[i - |now|]);
      w.url == p.url && w.visible && w.name != MAIN && (p.recorded.Some? ==> w.name == p.recorded.value)
  {
    hide Built, Worn, IsRestorableName;
    BuiltShape(now, build, minted);
    BuiltNamesAreNotMain(now, build, minted);
    hide Buildable;
    var k := i - |now|;
    assert Built(now, build, minted)[|now| + k] == LiveWindow(NewName(build[k], minted[k]), build[k].url, true);
  }

  lemma AfterReopen(live: seq<LiveWindow>, session: Session, origin: string, minted: seq<string>)
    returns (target: Option<RestoredWindow>, left: seq<RestoredWindow>, after: seq<LiveWindow>)
    requires ReadyToReopen(live, session, origin, minted)
    ensures |minted| == |ReopenPlanOf(live, session, origin).build| == |left|
    ensures after == Applied(live, ReopenPlanOf(live, session, origin), minted)
    ensures Split(live, if Booting(live) then [] else RestorePlan(session), target, left)
    ensures Outcome(live, origin, target, left, after)
  {
    hide Booting, RestorePlan, Worn, IsOrigin, IsRestorableName;
    target, left := PlanSplits(live, session, origin);
    PreparedShape(live, session, origin);
    RestorePlanIsValid(session);
    var plan := ReopenPlanOf(live, session, origin);
    var now := Prepared(live, plan);
    var record := if Booting(live) then [] else RestorePlan(session);
    hide ReopenPlanOf, Prepared, WorkspaceUrl, Split, Outcome, Buildable, AllPlanned;
    PlanIsBuildable(live, record, target, left, origin, minted, now);
    Assemble(live, origin, target, left, now, plan.build, minted);
    after := Built(now, plan.build, minted);
    AppliedIsBuilt(live, plan, minted);
  }

  lemma AppliedIsBuilt(live: seq<LiveWindow>, plan: ReopenPlan, minted: seq<string>)
    requires |minted| == |plan.build|
    ensures Applied(live, plan, minted) == Built(Prepared(live, plan), plan.build, minted)
  {
  }

  lemma BuiltNamesAreNotMain(now: seq<LiveWindow>, build: seq<PlannedWindow>, minted: seq<string>)
    requires Buildable(now, build, minted)
    ensures forall k :: 0 <= k < |build| ==> NewName(build[k], minted[k]) != MAIN
  {
  }

  /** What a reopen no longer owes, entry by entry. Only an entry recorded as `main`,
      with no `main` alive to stand for it, is still owed. */
  lemma SettledUnlessMainIsGone(live: seq<LiveWindow>, session: Session, origin: string, minted: seq<string>, w: RestoredWindow)
    requires ReadyToReopen(live, session, origin, minted) && !Booting(live) && w in RestorePlan(session)
    requires NamesUnique(live)
    ensures IsOwed(Applied(live, ReopenPlanOf(live, session, origin), minted), w)
            <==> w.recorded == Some(MAIN) && !Worn(live, MAIN)
  {
    hide Booting, RestorePlan, IsOrigin, IsRestorableName, ReopenPlanOf, Applied, WorkspaceUrl, WindowWorkspace, AreFresh,
         IsWorkspaceRoute, Worn, IsOwed, Adrift;
    var target, left, after := AfterReopen(live, session, origin, minted);
    RestorePlanIsValid(session);
    if w in left {
      var k :| 0 <= k < |left| && left[k] == w;
      OneBuilt(live, after, origin, w, |live| + k);
    } else if target == Some(w) {
      OneTaken(live, after, origin, w);
    } else {
      OneKept(live, after, w, target, origin);
    }
  }

  lemma OneBuilt(live: seq<LiveWindow>, after: seq<LiveWindow>, origin: string, w: RestoredWindow, at: nat)
    requires IsOrigin(origin) && IsWorkspaceRoute(w.workspace) && |live| <= at < |after|
    requires after[at].url == WorkspaceUrl(origin, w.workspace)
    requires w.recorded.Some? && w.recorded != Some(MAIN) ==> after[at].name == w.recorded.value
    requires forall i :: |live| <= i < |after| ==> after[i].name != MAIN
    requires forall i :: 0 <= i < |live| ==> after[i].name == live[i].name
    ensures IsOwed(after, w) <==> w.recorded == Some(MAIN) && !Worn(live, MAIN)
  {
    hide IsOrigin, IsWorkspaceRoute, WorkspaceUrl, WindowWorkspace;
    WorkspaceUrlReadsBack(origin, w.workspace);
    MainWornAfter(live, after);
  }

  lemma MainWornAfter(live: seq<LiveWindow>, after: seq<LiveWindow>)
    requires |live| <= |after| && forall i :: |live| <= i < |after| ==> after[i].name != MAIN
    requires forall i :: 0 <= i < |live| ==> after[i].name == live[i].name
    ensures Worn(after, MAIN) <==> Worn(live, MAIN)
  {
  }

  lemma OneTaken(live: seq<LiveWindow>, after: seq<LiveWindow>, origin: string, w: RestoredWindow)
    requires IsOrigin(origin) && IsWorkspaceRoute(w.workspace) && |live| <= |after|
    requires w.MainMayTake() && Adrift(live)
    requires forall i :: 0 <= i < |live| ==> after[i].name == live[i].name
    requires forall i :: 0 <= i < |live| && live[i].name == MAIN ==> after[i].url == WorkspaceUrl(origin, w.workspace)
    ensures !IsOwed(after, w) && Worn(live, MAIN)
  {
    hide IsOrigin, IsWorkspaceRoute, WorkspaceUrl, WindowWorkspace;
    WorkspaceUrlReadsBack(origin, w.workspace);
    var i :| 0 <= i < |live| && live[i].name == MAIN;
    assert after[i].name == MAIN && WindowWorkspace(after[i].url) == Some(w.workspace);
  }

  lemma OneKept(live: seq<LiveWindow>, after: seq<LiveWindow>, w: RestoredWindow, target: Option<RestoredWindow>, origin: string)
    requires !IsOwed(live, w) && NamesUnique(live) && |live| <= |after|
    requires target.Some? ==> Adrift(live)
    requires forall i :: 0 <= i < |live| ==>
               && after[i].name == live[i].name
               && (after[i].url == live[i].url || (target.Some? && live[i].name == MAIN))
    ensures !IsOwed(after, w) && (w.recorded == Some(MAIN) ==> Worn(live, MAIN))
  {
    hide WindowWorkspace;
    match w.recorded
    case Some(n) =>
      var i :| 0 <= i < |live| && live[i].name == n;
      assert after[i].name == n;
    case None =>
      var i :| 0 <= i < |live| && WindowWorkspace(live[i].url) == Some(w.workspace);
      if target.Some? && live[i].name == MAIN {
        MainIsTheOne(live, i);
      }
      assert WindowWorkspace(after[i].url) == Some(w.workspace);
  }

  lemma MainIsTheOne(live: seq<LiveWindow>, i: nat)
    requires NamesUnique(live) && i < |live| && live[i].name == MAIN
    ensures MainOf(live) == Some(live[i])
  {
    var m := MainOf(live).value;
    var j :| 0 <= j < |live| && live[j] == m;
  }

  // ---- The theorems ----

  /** Past boot and with a live `main`, nothing the record names is left out: every
      recorded name is worn, and every unnamed entry's workspace is served. */
  lemma ReopenIsComplete(live: seq<LiveWindow>, session: Session, origin: string, minted: seq<string>, w: RestoredWindow)
    requires ReadyToReopen(live, session, origin, minted) && NamesUnique(live)
    requires Worn(live, MAIN) && !Booting(live) && w in RestorePlan(session)
    ensures
      var after := Applied(live, ReopenPlanOf(live, session, origin), minted);
      match w.recorded case Some(n) => Worn(after, n) case None => Served(after, w.workspace)
  {
    hide Booting, RestorePlan, ReopenPlanOf, Applied, IsRestorableName;
    SettledUnlessMainIsGone(live, session, origin, minted, w);
  }

  /** A reopen closes no window, hides none and leaves every window where it was,
      save a `main` that was on no workspace. */
  lemma ReopenKeepsWindows(live: seq<LiveWindow>, session: Session, origin: string, minted: seq<string>)
    requires ReadyToReopen(live, session, origin, minted)
    ensures
      var after := Applied(live, ReopenPlanOf(live, session, origin), minted);
      && |live| <= |after|
      && (forall i :: 0 <= i < |after| ==> after[i].visible)
      && forall i :: 0 <= i < |live| ==>
           && after[i].name == live[i].name
           && (after[i].url == live[i].url || (live[i].name == MAIN && Adrift(live)))
  {
    hide Booting, RestorePlan, ReopenPlanOf, Applied, IsRestorableName, Adrift, WorkspaceUrl, Worn;
    var target, left, after := AfterReopen(live, session, origin, minted);
  }

  lemma NothingOwed(plan: seq<RestoredWindow>, live: seq<LiveWindow>)
    ensures OwedOf(plan, live) == [] <==> forall w :: w in plan ==> !IsOwed(live, w)
  {
    hide IsOwed;
    OwedMembers(plan, live);
    if OwedOf(plan, live) != [] {
      assert OwedOf(plan, live)[0] in OwedOf(plan, live);
    }
  }

  /** A `main` on a splash stays there, and a reopen leaves the record alone. */
  lemma BootingStays(live: seq<LiveWindow>, session: Session, origin: string, minted: seq<string>)
    requires ReadyToReopen(live, session, origin, minted) && NamesUnique(live) && Booting(live)
    ensures Booting(Applied(live, ReopenPlanOf(live, session, origin), minted))
  {
    hide RestorePlan, ReopenPlanOf, Applied, WindowIsNavigated, WorkspaceUrl;
    var target, left, after := AfterReopen(live, session, origin, minted);
    var i :| 0 <= i < |live| && live[i].name == MAIN;
    MainIsTheOne(live, i);
    FirstIsMain(after, live);
  }

  /** New windows come after the old ones, so `main` is found where it was. */
  lemma {:induction false} FirstIsMain(after: seq<LiveWindow>, live: seq<LiveWindow>)
    requires |live| <= |after| && Worn(live, MAIN)
    requires forall i :: 0 <= i < |live| ==> after[i].name == live[i].name
    ensures MainOf(after).Some?
    ensures exists i :: 0 <= i < |live| && live[i].name == MAIN && MainOf(after) == Some(after[i]) && MainOf(live) == Some(live[i])
    decreases |live|
  {
    if live[0].name == MAIN {
      assert MainOf(after) == Some(after[0]);
    } else {
      var k :| 0 <= k < |live| && live[k].name == MAIN;
      assert live[1..][k - 1].name == MAIN;
      FirstIsMain(after[1..], live[1..]);
      var i :| 0 <= i < |live[1..]| && live[1..][i].name == MAIN && MainOf(after[1..]) == Some(after[1..][i])
               && MainOf(live[1..]) == Some(live[1..][i]);
      assert live[i + 1].name == MAIN && MainOf(after) == Some(after[i + 1]) && MainOf(live) == Some(live[i + 1]);
    }
  }

  lemma MainAfter(live: seq<LiveWindow>, origin: string, target: Option<RestoredWindow>, left: seq<RestoredWindow>,
                  after: seq<LiveWindow>)
    requires Outcome(live, origin, target, left, after) && Worn(live, MAIN)
    ensures MainOf(live).Some? && MainOf(after).Some?
    ensures MainOf(after).value.url
         == if target.Some? then WorkspaceUrl(origin, target.value.workspace) else MainOf(live).value.url
  {
    FirstIsMain(after, live);
  }

  lemma NoMainAfter(live: seq<LiveWindow>, origin: string, target: Option<RestoredWindow>, left: seq<RestoredWindow>,
                    after: seq<LiveWindow>)
    requires Outcome(live, origin, target, left, after) && !Worn(live, MAIN)
    ensures !Worn(after, MAIN)
  {
  }

  /** Past boot, the windows after a reopen are past boot too. Its `main` is on no
      workspace only when nothing was there for it to take. */
  lemma PastBootStays(live: seq<LiveWindow>, session: Session, origin: string, minted: seq<string>)
    requires ReadyToReopen(live, session, origin, minted) && !Booting(live)
    ensures
      var after := Applied(live, ReopenPlanOf(live, session, origin), minted);
      && !Booting(after)
      && (Adrift(after) ==> Worn(live, MAIN) && forall w :: w in RestorePlan(session) ==> w.recorded != Some(MAIN))
  {
    hide RestorePlan, ReopenPlanOf, Applied, WindowIsNavigated, WorkspaceUrl, WindowWorkspace, IsWorkspaceRoute, IsOrigin, Worn,
         AreFresh, MainOf;
    var target, left, after := AfterReopen(live, session, origin, minted);
    RestorePlanIsValid(session);
    if Worn(live, MAIN) {
      MainAfter(live, origin, target, left, after);
      if target.Some? {
        WorkspaceUrlReadsBack(origin, target.value.workspace);
      }
    } else {
      NoMainAfter(live, origin, target, left, after);
    }
  }

  /** What a second reopen, from any origin, still plans: nothing to show, nowhere
      to point `main`, and something to build exactly when the record names a
      `main` that no live window stands for. */
  lemma SecondReopen(live: seq<LiveWindow>, session: Session, origin: string, minted: seq<string>, again: string)
    requires ReadyToReopen(live, session, origin, minted) && NamesUnique(live)
    ensures
      var second := ReopenPlanOf(Applied(live, ReopenPlanOf(live, session, origin), minted), session, again);
      && second.show == [] && second.navigateMain == None
      && (second.build == [] <==> Worn(live, MAIN) || forall w :: w in RestorePlan(session) ==> w.recorded != Some(MAIN))
  {
    hide RestorePlan, WindowIsNavigated, WorkspaceUrl, WindowWorkspace, IsOrigin, Worn, AreFresh, Applied, Ordered, Hidden,
         NamesUnique, IsOwed, Booting, Adrift, ReopenPlanOf;
    var after := Applied(live, ReopenPlanOf(live, session, origin), minted);
    ReopenKeepsWindows(live, session, origin, minted);
    NothingToShow(after);
    if Booting(live) {
      BootingStays(live, session, origin, minted);
      BootingHasMain(live);
      PlanWhileBooting(after, session, again);
    } else {
      PastBootStays(live, session, origin, minted);
      forall w | w in RestorePlan(session) ensures IsOwed(after, w) <==> w.recorded == Some(MAIN) && !Worn(live, MAIN) {
        SettledUnlessMainIsGone(live, session, origin, minted, w);
      }
      PlanPastBoot(after, session, again, Worn(live, MAIN));
    }
  }

  /** The live window called `main`, when names are not shared. */
  lemma MainIsOnly(live: seq<LiveWindow>, i: nat)
    requires NamesUnique(live) && i < |live| && live[i].name == MAIN
    ensures MainOf(live) == Some(live[i])
    decreases |live|
  {
    if i > 0 {
      assert NamesUnique(live[1..]) by {
        assert forall j, k :: 0 <= j < k < |live[1..]| ==> live[1..][j] == live[j + 1] && live[1..][k] == live[k + 1];
      }
      MainIsOnly(live[1..], i - 1);
    }
  }

  /** `main` is still on the splash: its URL is no gateway's. */
  predicate OnSplash(w: LiveWindow) {
    w.name == "main" && !StartsWithIgnoringCase(w.url, "http://") && !StartsWithIgnoringCase(w.url, "https://")
  }

  /** While `main` is on the splash a reopen only shows what is hidden. */
  lemma SplashIsLeftAlone(live: seq<LiveWindow>, session: Session, origin: string, i: nat)
    requires NamesUnique(live) && i < |live| && OnSplash(live[i])
    ensures
      var plan := ReopenPlanOf(live, session, origin);
      plan.show == Hidden(Ordered(live)) && plan.navigateMain == None && plan.build == []
  {
    MainIsOnly(live, i);
    hide Hidden, Ordered;
    PlanWhileBooting(live, session, origin);
  }

  /** Past boot, a `main` on no workspace is pointed to its own recorded one, or else to that of
      the first owed entry that has no name, when there is one. */
  lemma AdriftMainIsPointed(live: seq<LiveWindow>, session: Session, origin: string, i: nat)
    requires NamesUnique(live) && i < |live| && live[i].name == "main" && !OnSplash(live[i])
    requires WindowWorkspace(live[i].url) == None
    ensures
      var plan := ReopenPlanOf(live, session, origin);
      && (forall w :: w in RestorePlan(session) && w.recorded == Some(MAIN) ==>
            plan.navigateMain == Some(PlannedWindow(WorkspaceUrl(origin, w.workspace), None, w.frame)))
      && ((exists w :: w in RestorePlan(session) && w.recorded == None && !Served(live, w.workspace)) ==>
            plan.navigateMain.Some?)
  {
    MainIsOnly(live, i);
    hide Hidden, Ordered, WorkspaceUrl, RestorePlan, WindowWorkspace, StartsWithIgnoringCase, NamesUnique;
    var all := RestorePlan(session);
    SplashIsNotNavigated(live[i]);
    RestorePlanIsValid(session);
    OwedMembers(all, live);
    RecordedMainIs(all, live);
    var recorded, owed := RecordedMain(all, live), OwedOf(all, live);
    forall w | w in all && w.recorded == Some(MAIN) ensures recorded == Some(w) {
      RecordedMainIsMain(all, live);
      OnlyOneIsMain(all, recorded.value, w);
    }
    if w :| w in all && w.recorded == None && !Served(live, w.workspace) {
      assert w in owed && w.MainMayTake();
      var k :| 0 <= k < |owed| && owed[k] == w;
      assert FirstTakeable(owed) <= k;
    }
  }

  lemma SplashIsNotNavigated(w: LiveWindow)
    ensures w.name == MAIN ==> (OnSplash(w) <==> !WindowIsNavigated(w.url))
  {
    SchemeIsExact(w.url, if StripHttpScheme(w.url).Some? then StripHttpScheme(w.url).value else "");
  }

  lemma OnlyOneIsMain(plan: seq<RestoredWindow>, v: RestoredWindow, w: RestoredWindow)
    requires IsRestorePlan(plan) && v in plan && w in plan && v.recorded == w.recorded == Some(MAIN)
    ensures v == w
  {
    var i :| 0 <= i < |plan| && plan[i] == v;
    var j :| 0 <= j < |plan| && plan[j] == w;
    assert i == 0 && j == 0;
  }

  lemma BootingHasMain(live: seq<LiveWindow>)
    requires Booting(live)
    ensures Worn(live, MAIN)
  {
  }

  lemma PlanWhileBooting(live: seq<LiveWindow>, session: Session, origin: string)
    requires Booting(live)
    ensures
      var plan := ReopenPlanOf(live, session, origin);
      plan.show == Hidden(Ordered(live)) && plan.navigateMain == None && plan.build == []
  {
    hide Hidden, Ordered;
  }

  lemma PlanPastBoot(live: seq<LiveWindow>, session: Session, origin: string, stands: bool)
    requires !Booting(live)
    requires forall w :: w in RestorePlan(session) ==> (IsOwed(live, w) <==> w.recorded == Some(MAIN) && !stands)
    requires Adrift(live) ==> stands && forall w :: w in RestorePlan(session) ==> w.recorded != Some(MAIN)
    ensures
      var plan := ReopenPlanOf(live, session, origin);
      && plan.show == Hidden(Ordered(live)) && plan.navigateMain == None
      && (plan.build == [] <==> stands || forall w :: w in RestorePlan(session) ==> w.recorded != Some(MAIN))
  {
    hide Hidden, Ordered, RestorePlan, OwedOf, IsOwed, Booting, Adrift, RecordedMain, WorkspaceUrl, AllPlanned;
    NothingOwed(RestorePlan(session), live);
    RecordedMainIs(RestorePlan(session), live);
  }

  // ---- The whole reopen, twice ----

  lemma FrontIs(live: seq<LiveWindow>, session: Session, origin: string)
    ensures ReopenPlanOf(live, session, origin).show == Hidden(Ordered(live))
    ensures ReopenPlanOf(live, session, origin).front.None? <==> !Worn(live, MAIN) && Hidden(Ordered(live)) == []
  {
    hide Hidden, Ordered, RestorePlan, OwedOf, Booting, Adrift, RecordedMain, WorkspaceUrl, AllPlanned;
  }

  /** The window brought to the front is `main` when it is alive, else the first hidden one.
      It was there before, and stands on screen afterwards. */
  lemma FrontIsOnScreen(live: seq<LiveWindow>, session: Session, origin: string, minted: seq<string>)
    requires ReadyToReopen(live, session, origin, minted)
    ensures
      var plan := ReopenPlanOf(live, session, origin);
      var after := Applied(live, plan, minted);
      && (Worn(live, MAIN) ==> plan.front == Some(MAIN))
      && (!Worn(live, MAIN) && Hidden(Ordered(live)) != [] ==> plan.front == Some(Hidden(Ordered(live))[0]))
      && (plan.front.None? <==> !Worn(live, MAIN) && forall w :: w in live ==> w.visible)
      && (plan.front.Some? ==>
            exists i :: 0 <= i < |live| && live[i].name == plan.front.value
                        && i < |after| && after[i].name == live[i].name && after[i].visible)
  {
    hide RestorePlan, Applied, Ordered, Hidden, ReopenPlanOf, IsRestorableName, WorkspaceUrl, Worn, Adrift, AreFresh;
    var plan := ReopenPlanOf(live, session, origin);
    var after := Applied(live, plan, minted);
    FrontOf(live, session, origin);
    ReopenKeepsWindows(live, session, origin, minted);
    ShowIsWhatIsHidden(live, session, origin);
    FrontIs(live, session, origin);
    MainIsAlive(live);
    if plan.front.None? {
      forall w | w in live ensures w.visible {
        assert w.visible || w.name in plan.show;
      }
    } else {
      var front := plan.front.value;
      assert Worn(live, MAIN) || front in plan.show;
      var i :| 0 <= i < |live| && live[i].name == front;
      assert after[i].name == live[i].name && after[i].visible;
    }
  }

  lemma MainIsAlive(live: seq<LiveWindow>)
    ensures Worn(live, MAIN) <==> exists i :: 0 <= i < |live| && live[i].name == MAIN
  {
  }

  lemma FrontOf(live: seq<LiveWindow>, session: Session, origin: string)
    ensures
      ReopenPlanOf(live, session, origin).front
      == if Worn(live, MAIN) then Some(MAIN)
         else if Hidden(Ordered(live)) != [] then Some(Hidden(Ordered(live))[0]) else None
  {
    hide Hidden, Ordered, RestorePlan, OwedOf, Booting, Adrift, RecordedMain, WorkspaceUrl, AllPlanned;
  }

  lemma NothingToApply(live: seq<LiveWindow>, plan: ReopenPlan)
    requires plan.show == [] && plan.navigateMain == None && plan.build == []
    ensures Applied(live, plan, []) == live
  {
    assert Shown(live, []) == live;
  }

  lemma {:induction false} AllAreBuilt(now: seq<LiveWindow>, build: seq<PlannedWindow>, minted: seq<string>)
    requires |minted| == |build|
    ensures |Built(now, build, minted)| == |now| + |build|
    decreases |build|
  {
    if build != [] {
      var name := NameForNewWindow(now, build[0].recorded, minted[0]);
      AllAreBuilt(now + [LiveWindow(name, build[0].url, true)], build[1..], minted[1..]);
    }
  }

  lemma AppliedLength(live: seq<LiveWindow>, plan: ReopenPlan, minted: seq<string>)
    requires |minted| == |plan.build|
    ensures |Applied(live, plan, minted)| == |live| + |plan.build|
  {
    var navigated := if plan.navigateMain.Some? then Navigated(live, plan.navigateMain.value.url) else live;
    AllAreBuilt(Shown(navigated, plan.show), plan.build, minted);
  }

  /** Reopening again changes nothing exactly when a `main` is alive. Without one, there is
      nothing to front once all windows are shown, and each further reopen makes one more
      window, however many stand there already. */
  lemma ReopenTwice(live: seq<LiveWindow>, session: Session, origin: string, minted: seq<string>, spare: LiveWindow,
                    again: string, minted': seq<string>, spare': LiveWindow)
    requires ReadyToReopen(live, session, origin, minted) && NamesUnique(live)
    requires spare.visible && spare.name != MAIN
    requires
      var first := Reopened(live, ReopenPlanOf(live, session, origin), minted, spare);
      |minted'| == |ReopenPlanOf(first, session, again).build|
    ensures
      var first := Reopened(live, ReopenPlanOf(live, session, origin), minted, spare);
      var second := Reopened(first, ReopenPlanOf(first, session, again), minted', spare');
      && (second == first <==> Worn(live, MAIN))
      && (!Worn(live, MAIN) ==> |second| > |first|)
  {
    hide RestorePlan, WindowIsNavigated, WorkspaceUrl, WindowWorkspace, IsOrigin, AreFresh, Applied, Ordered, Hidden,
         NamesUnique, Booting, Adrift, ReopenPlanOf, IsRestorableName;
    var plan := ReopenPlanOf(live, session, origin);
    var after := Applied(live, plan, minted);
    var first := Reopened(live, plan, minted, spare);
    FrontIs(live, session, origin);
    ReopenKeepsWindows(live, session, origin, minted);
    NothingToShow(after);
    NothingToShow(first);
    FrontIs(first, session, again);
    var next := ReopenPlanOf(first, session, again);
    if Worn(live, MAIN) {
      assert first == after + [] == after;
      SecondReopen(live, session, origin, minted, again);
      MainIsKept(live, after);
      NothingToApply(first, next);
    } else {
      MainStaysAway(live, session, origin, minted);
      AppliedLength(first, next, minted');
    }
  }

  lemma MainIsKept(live: seq<LiveWindow>, after: seq<LiveWindow>)
    requires Worn(live, MAIN) && |live| <= |after| && forall i :: 0 <= i < |live| ==> after[i].name == live[i].name
    ensures Worn(after, MAIN)
  {
    var i :| 0 <= i < |live| && live[i].name == MAIN;
    assert after[i].name == MAIN;
  }

  lemma MainStaysAway(live: seq<LiveWindow>, session: Session, origin: string, minted: seq<string>)
    requires ReadyToReopen(live, session, origin, minted) && !Worn(live, MAIN)
    ensures !Worn(Applied(live, ReopenPlanOf(live, session, origin), minted), MAIN)
  {
    hide RestorePlan, ReopenPlanOf, Applied, WindowIsNavigated, WorkspaceUrl, WindowWorkspace, IsOrigin, AreFresh;
    var target, left, after := AfterReopen(live, session, origin, minted);
    NoMainAfter(live, origin, target, left, after);
  }

  /** The record names `main`, and no window is alive: what the first reopen builds for it
      wears another name, so the second one builds it again. */
  lemma MainIsBuiltAgain(origin: string, workspace: string, again: string, name: string)
    requires IsOrigin(origin) && IsWorkspaceRoute(workspace) && name != MAIN
    ensures
      var session := Session([OpenWindow(Some(MAIN), workspace, None)], map[]);
      && ReadyToReopen([], session, origin, [name])
      && ReopenPlanOf([], session, origin).build == [PlannedWindow(WorkspaceUrl(origin, workspace), None, None)]
      && ReopenPlanOf(Applied([], ReopenPlanOf([], session, origin), [name]), session, again).build != []
  {
    hide WorkspaceUrl, IsOrigin, IsWorkspaceRoute;
    var entry := OpenWindow(Some(MAIN), workspace, None);
    var session := Session([entry], map[]);
    var w := RestoredWindow(Some(MAIN), workspace, None);
    assert [entry][1..] == [];
    assert Validated([], session.geometry, {MAIN}) == [];
    assert Validated(session.open, session.geometry, {}) == [w];
    assert [w][1..] == [];
    assert OnlyMain([], true) == [] && OnlyMain([], false) == [];
    assert OnlyMain([w], true) == [w];
    assert OnlyMain([w], false) == [];
    assert RestorePlan(session) == [w];
    OneOwed(w, session, origin);
    SecondReopen([], session, origin, [name], again);
    assert w in RestorePlan(session);
  }

  lemma OneOwed(w: RestoredWindow, session: Session, origin: string)
    requires RestorePlan(session) == [w] && w.recorded == Some(MAIN)
    ensures ReopenPlanOf([], session, origin).build == [Planned(origin, w)]
  {
    hide WorkspaceUrl, RestorePlan;
    assert [w][..0] == [];
    assert OwedOf([w], []) == [w];
    assert AllPlanned(origin, [w]) == [Planned(origin, w)];
  }
}
