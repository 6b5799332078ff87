/** `launch_plan` of crates/lucidos-app/src/desktop.rs: where `main` goes at launch,
    and which other windows open. */
module LaunchPlans {
  import opened Wrappers
  import opened WindowTarget
  import opened WindowSession
  import opened WindowPlans

  datatype LaunchPlan = LaunchPlan(main: string, extra: seq<PlannedWindow>)

  /** An entry still wanted, with its index in the record. */
  datatype Wanted = Wanted(index: nat, window: RestoredWindow)

  function FirstOn(restore: seq<RestoredWindow>, workspace: string): (r: Option<nat>)
    ensures r.Some? ==> r.value < |restore| && restore[r.value].workspace == workspace
                        && forall i :: 0 <= i < r.value ==> restore[i].workspace != workspace
    ensures r.None? ==> forall i :: 0 <= i < |restore| ==> restore[i].workspace != workspace
  {
    if restore == [] then None
    else if restore[0].workspace == workspace then Some(0)
    else
      var r := FirstOn(restore[1..], workspace);
      if r.Some? then Some(r.value + 1) else None
  }

  /** The index of the entry that a tap's own workspace already stands for. */
  function Skipped(tap: Option<string>, restore: seq<RestoredWindow>): Option<nat> {
    if tap.None? then None
    else
      var tapped := WindowWorkspace(tap.value);
      if tapped.None? then None else FirstOn(restore, tapped.value)
  }

  /** The entry with its index, but for the skipped one. */
  method CollectWanted(skipped: Option<nat>, restore: seq<RestoredWindow>) returns (wanted: seq<Wanted>)
    requires skipped.Some? ==> skipped.value < |restore|
    ensures |wanted| == if skipped.Some? then |restore| - 1 else |restore|
    ensures forall k :: 0 <= k < |wanted| ==> wanted[k] == Wanted(EntryOf(skipped, k), restore[EntryOf(skipped, k)])
  {
    wanted := [];
    for i := 0 to |restore|
      invariant |wanted| == (if skipped.Some? && skipped.value < i then i - 1 else i)
      invariant forall k :: 0 <= k < |wanted| ==>
        EntryOf(skipped, k) < i && wanted[k] == Wanted(EntryOf(skipped, k), restore[EntryOf(skipped, k)])
    {
      if Some(i) != skipped {
        wanted := wanted + [Wanted(i, restore[i])];
      }
    }
  }

  method PlanAll(origin: string, wanted: seq<Wanted>) returns (extra: seq<PlannedWindow>)
    ensures |extra| == |wanted| && forall k :: 0 <= k < |wanted| ==> extra[k] == Planned(origin, wanted[k].window)
  {
    hide Planned;
    extra := [];
    for k := 0 to |wanted|
      invariant |extra| == k && forall i :: 0 <= i < k ==> extra[i] == Planned(origin, wanted[i].window)
    {
      extra := extra + [Planned(origin, wanted[k].window)];
    }
  }

  method PlanLaunch(tap: Option<string>, restore: seq<RestoredWindow>, origin: string) returns (plan: LaunchPlan)
    ensures plan.main == MainUrl(tap, restore, origin)
    ensures plan.extra == Extras(tap, restore, origin)
  {
    hide WorkspaceUrl, Planned, Skipped, FirstOn;
    var skipped := Skipped(tap, restore);
    SkippedIsAnEntry(tap, restore);
    var wanted := CollectWanted(skipped, restore);
    var main: string;
    if tap.Some? {
      if wanted != [] && wanted[0].index == 0 && wanted[0].window.MainMayTake() {
        wanted := [Wanted(0, wanted[0].window.(frame := None))] + wanted[1..];
      }
      main := tap.value;
    } else if wanted != [] && wanted[0].window.MainMayTake() {
      main := WorkspaceUrl(origin, wanted[0].window.workspace);
      wanted := wanted[1..];
    } else {
      main := origin;
    }
    var extra := PlanAll(origin, wanted);
    assert extra == Extras(tap, restore, origin);
    plan := LaunchPlan(main, extra);
  }

  lemma SkippedIsAnEntry(tap: Option<string>, restore: seq<RestoredWindow>)
    ensures Skipped(tap, restore).Some? ==> tap.Some? && Skipped(tap, restore).value < |restore|
  {
    hide WindowWorkspace;
  }

  // ---- What the plan is, stated on the record ----

  /** The one entry, if any, that no extra window stands for. */
  function Absorbed(tap: Option<string>, restore: seq<RestoredWindow>): (r: Option<nat>)
    ensures r.Some? ==> r.value < |restore|
  {
    if tap.Some? then Skipped(tap, restore)
    else if restore != [] && restore[0].MainMayTake() then Some(0)
    else None
  }

  function MainUrl(tap: Option<string>, restore: seq<RestoredWindow>, origin: string): string {
    if tap.Some? then tap.value
    else if restore != [] && restore[0].MainMayTake() then WorkspaceUrl(origin, restore[0].workspace)
    else origin
  }

  /** Does a tap leave the first entry an extra while `main` already wears its frame? */
  predicate LosesFrame(tap: Option<string>, restore: seq<RestoredWindow>, j: nat)
    requires j < |restore|
  {
    tap.Some? && j == 0 && restore[0].MainMayTake()
  }

  /** The entry that extra window `k` stands for. */
  function EntryOf(gone: Option<nat>, k: nat): nat {
    if gone.Some? && k >= gone.value then k + 1 else k
  }

  function ExtraFor(tap: Option<string>, restore: seq<RestoredWindow>, origin: string, j: nat): PlannedWindow
    requires j < |restore|
  {
    Planned(origin, if LosesFrame(tap, restore, j) then restore[j].(frame := None) else restore[j])
  }

  function Extras(tap: Option<string>, restore: seq<RestoredWindow>, origin: string): (r: seq<PlannedWindow>)
    ensures |r| + (if Absorbed(tap, restore).Some? then 1 else 0) == |restore|
    ensures forall k :: 0 <= k < |r| ==>
              EntryOf(Absorbed(tap, restore), k) < |restore|
              && r[k] == ExtraFor(tap, restore, origin, EntryOf(Absorbed(tap, restore), k))
  {
    var gone := Absorbed(tap, restore);
    seq(if gone.Some? then |restore| - 1 else |restore|, k requires 0 <= k < |restore| && EntryOf(gone, k) < |restore| =>
      ExtraFor(tap, restore, origin, EntryOf(gone, k)))
  }

  /** Where the extra window of entry `j` stands, when the entry has one. */
  function PlaceOf(gone: Option<nat>, j: nat): nat {
    if gone.Some? && j > gone.value then j - 1 else j
  }

  /** An extra window that rebuilds an entry: on its workspace, under its name, and
      at its frame unless `main` wears that one. */
  predicate Rebuilds(p: PlannedWindow, w: RestoredWindow, origin: string, losesFrame: bool) {
    && p.url == WorkspaceUrl(origin, w.workspace)
    && p.recorded == (if w.recorded == Some(MAIN) then None else w.recorded)
    && p.frame == (if losesFrame then None else w.frame)
  }

  /** The session is conserved: each entry but the absorbed one becomes exactly one
      extra window, in the record's order. Only the entry whose frame `main` already
      wears loses it, and no extra window is called `main`. */
  lemma LaunchConservesTheSession(tap: Option<string>, restore: seq<RestoredWindow>, origin: string)
    ensures
      var (gone, extra) := (Absorbed(tap, restore), Extras(tap, restore, origin));
      && |extra| + (if gone.Some? then 1 else 0) == |restore|
      && (forall j :: 0 <= j < |restore| && gone != Some(j) ==>
            PlaceOf(gone, j) < |extra|
            && Rebuilds(extra[PlaceOf(gone, j)], restore[j], origin,
                 tap.Some? && j == 0 && (restore[0].recorded == None || restore[0].recorded == Some(MAIN))))
      && (forall i, j :: 0 <= i < j < |restore| && gone != Some(i) && gone != Some(j) ==> PlaceOf(gone, i) < PlaceOf(gone, j))
      && (forall k :: 0 <= k < |extra| ==> extra[k].recorded != Some(MAIN))
  {
    hide WorkspaceUrl, Extras, Absorbed, Rebuilds, LosesFrame;
    var gone, extra := Absorbed(tap, restore), Extras(tap, restore, origin);
    forall j | 0 <= j < |restore| && gone != Some(j)
      ensures PlaceOf(gone, j) < |extra|
      ensures Rebuilds(extra[PlaceOf(gone, j)], restore[j], origin,
                tap.Some? && j == 0 && (restore[0].recorded == None || restore[0].recorded == Some(MAIN)))
    {
      assert EntryOf(gone, PlaceOf(gone, j)) == j;
      ExtraRebuilds(tap, restore, origin, j);
    }
  }

  lemma ExtraRebuilds(tap: Option<string>, restore: seq<RestoredWindow>, origin: string, j: nat)
    requires j < |restore|
    ensures Rebuilds(ExtraFor(tap, restore, origin, j), restore[j], origin,
              tap.Some? && j == 0 && (restore[0].recorded == None || restore[0].recorded == Some(MAIN)))
  {
  }

  /** A tap absorbs an entry exactly when one is on the tapped workspace, and then
      the first such entry. Without a tap `main` absorbs the first entry exactly
      when it may take it, and goes to that entry's workspace. */
  lemma AbsorbedIsTheOneMainStandsFor(tap: Option<string>, restore: seq<RestoredWindow>, origin: string)
    requires IsOrigin(origin) && forall w :: w in restore ==> IsWorkspaceRoute(w.workspace)
    ensures
      var gone := Absorbed(tap, restore);
      && (gone.Some? ==> WindowWorkspace(MainUrl(tap, restore, origin)) == Some(restore[gone.value].workspace))
      && (gone.Some? && tap.Some? ==>
            forall i :: 0 <= i < gone.value ==> restore[i].workspace != restore[gone.value].workspace)
      && (tap.Some? ==> MainUrl(tap, restore, origin) == tap.value)
      && (gone.Some? && tap.None? ==>
            gone.value == 0 && (restore[0].recorded == None || restore[0].recorded == Some(MAIN))
            && MainUrl(tap, restore, origin) == WorkspaceUrl(origin, restore[0].workspace))
      && (gone.None? && tap.Some? ==>
            forall j :: 0 <= j < |restore| ==> WindowWorkspace(tap.value) != Some(restore[j].workspace))
      && (gone.None? && tap.None? ==> MainUrl(tap, restore, origin) == origin
                                      && (restore != [] ==> restore[0].recorded.Some? && restore[0].recorded != Some(MAIN)))
  {
    hide WorkspaceUrl, IsOrigin, IsWorkspaceRoute, WindowWorkspace;
    if tap.None? && restore != [] {
      assert restore[0] in restore;
      WorkspaceUrlReadsBack(origin, restore[0].workspace);
    }
  }

  /** Launched without a tap, a record that names a `main` puts `main` back on its
      own workspace. */
  lemma MainComesBack(session: Session, origin: string, w: RestoredWindow)
    requires IsOrigin(origin) && w in RestorePlan(session) && w.recorded == Some(MAIN)
    ensures MainUrl(None, RestorePlan(session), origin) == WorkspaceUrl(origin, w.workspace)
  {
    hide WorkspaceUrl, IsOrigin, RestorePlan, IsWorkspaceRoute, IsRestorableName;
    RestorePlanIsValid(session);
    var restore := RestorePlan(session);
    var i :| 0 <= i < |restore| && restore[i] == w;
    assert i == 0;
  }
}
