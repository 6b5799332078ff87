/** What a window's URL says of its workspace, from crates/lucidos-app/src/window_target.rs. */
module WindowTarget {
  import opened Wrappers

  predicate IsLowerOrDigit(c: char) {
    'a' <= c <= 'z' || '0' <= c <= '9'
  }

  function Lower(c: char): char {
    if 'A' <= c <= 'Z' then (c as int + 32) as char else c
  }

  predicate IsWorkspaceSlug(s: string) {
    && s != "" && s[0] != '-' && s[|s| - 1] != '-'
    && (forall i :: 0 <= i < |s| - 1 ==> !(s[i] == '-' && s[i + 1] == '-'))
    && (forall i :: 0 <= i < |s| ==> IsLowerOrDigit(s[i]) || s[i] == '-')
  }

  predicate IsGatewayName(s: string) {
    && s != "" && s[0] != '-' && s[|s| - 1] != '-'
    && (forall i :: 0 <= i < |s| ==> IsLowerOrDigit(s[i]) || s[i] == '-')
  }

  /** The first index of a character that `stops` marks, or the length. */
  function Find(s: string, stops: set<char>): (r: nat)
    ensures r <= |s| && (r < |s| ==> s[r] in stops) && forall i :: 0 <= i < r ==> s[i] !in stops
  {
    if s == "" || s[0] in stops then 0 else 1 + Find(s[1..], stops)
  }

  /** A slug, or a slug on a named gateway. */
  predicate IsWorkspaceRoute(s: string) {
    var at := Find(s, {'@'});
    if at == |s| then IsWorkspaceSlug(s) else IsWorkspaceSlug(s[..at]) && IsGatewayName(s[at + 1..])
  }

  predicate StartsWithIgnoringCase(url: string, prefix: string) {
    |prefix| <= |url| && forall i :: 0 <= i < |prefix| ==> Lower(url[i]) == prefix[i]
  }

  const HTTP := "http://"
  const HTTPS := "https://"

  function StripHttpScheme(url: string): Option<string> {
    if StartsWithIgnoringCase(url, HTTP) then Some(url[|HTTP|..])
    else if StartsWithIgnoringCase(url, HTTPS) then Some(url[|HTTPS|..])
    else None
  }

  const PATH_STOPS := {'/', '?', '#'}

  /** The workspace a URL serves, when it serves one. */
  function WindowWorkspace(url: string): Option<string> {
    var rest := StripHttpScheme(url);
    if rest.None? then None
    else
      var i := Find(rest.value, PATH_STOPS);
      if i == |rest.value| || rest.value[i] != '/' then None
      else
        var path := rest.value[i + 1..];
        var segment := path[..Find(path, PATH_STOPS)];
        if IsWorkspaceRoute(segment) then Some(segment) else None
  }

  predicate WindowIsNavigated(url: string) {
    StripHttpScheme(url).Some?
  }

  function WorkspaceUrl(origin: string, workspace: string): string {
    origin + "/" + workspace + "/"
  }

  /** A scheme and an authority, with no path, query or fragment. */
  ghost predicate IsOrigin(origin: string) {
    StripHttpScheme(origin).Some? && Find(StripHttpScheme(origin).value, PATH_STOPS) == |StripHttpScheme(origin).value|
  }

  lemma {:induction false} FindExactly(s: string, stops: set<char>, k: nat)
    requires k <= |s| && (k < |s| ==> s[k] in stops) && forall i :: 0 <= i < k ==> s[i] !in stops
    ensures Find(s, stops) == k
  {
    var r := Find(s, stops);
  }

  lemma RouteHasNoStop(route: string)
    requires IsWorkspaceRoute(route)
    ensures forall i :: 0 <= i < |route| ==> route[i] !in PATH_STOPS
  {
    var at := Find(route, {'@'});
    forall i | 0 <= i < |route| ensures route[i] !in PATH_STOPS {
      if i < at {
        assert route[..at][i] == route[i];
      } else if i > at {
        assert route[at + 1..][i - at - 1] == route[i];
      }
    }
  }

  lemma SchemeStays(origin: string, more: string)
    requires StripHttpScheme(origin).Some?
    ensures StripHttpScheme(origin + more) == Some(StripHttpScheme(origin).value + more)
  {
    var url := origin + more;
    assert forall i :: 0 <= i < |origin| ==> url[i] == origin[i];
    if StartsWithIgnoringCase(origin, HTTP) {
      assert url[|HTTP|..] == origin[|HTTP|..] + more;
    } else {
      assert origin[4] != url[4] || Lower(url[4]) == 's';
      assert !StartsWithIgnoringCase(url, HTTP) by {
        assert Lower(url[4]) == HTTPS[4];
      }
      assert url[|HTTPS|..] == origin[|HTTPS|..] + more;
    }
  }

  /** A composed workspace URL reads back as the workspace it was composed for. */
  lemma WorkspaceUrlReadsBack(origin: string, workspace: string)
    requires IsOrigin(origin) && IsWorkspaceRoute(workspace)
    ensures WindowWorkspace(WorkspaceUrl(origin, workspace)) == Some(workspace)
    ensures WindowIsNavigated(WorkspaceUrl(origin, workspace))
  {
    var authority := StripHttpScheme(origin).value;
    var tail := "/" + workspace + "/";
    assert WorkspaceUrl(origin, workspace) == origin + tail;
    SchemeStays(origin, tail);
    var rest := authority + tail;
    FindExactly(rest, PATH_STOPS, |authority|);
    assert rest[|authority|] == '/';
    var path := rest[|authority| + 1..];
    assert path == workspace + "/";
    RouteHasNoStop(workspace);
    FindExactly(path, PATH_STOPS, |workspace|);
    assert path[..|workspace|] == workspace;
  }

  /** Lower-case letters and digits, at least one. */
  predicate IsRun(s: string) {
    s != "" && forall i :: 0 <= i < |s| ==> 'a' <= s[i] <= 'z' || '0' <= s[i] <= '9'
  }

  function Hyphenated(runs: seq<string>): string
    requires runs != []
  {
    if |runs| == 1 then runs[0] else runs[0] + ['-'] + Hyphenated(runs[1..])
  }

  ghost predicate AreRuns(runs: seq<string>) {
    runs != [] && forall k :: 0 <= k < |runs| ==> IsRun(runs[k])
  }

  lemma {:induction false} RunsMakeSlug(runs: seq<string>)
    requires AreRuns(runs)
    ensures IsWorkspaceSlug(Hyphenated(runs))
    decreases |runs|
  {
    assert IsRun(runs[0]);
    if |runs| > 1 {
      var rest := Hyphenated(runs[1..]);
      RunsMakeSlug(runs[1..]);
      var n := |runs[0]|;
      var s := Hyphenated(runs);
      forall i | 0 <= i < |s| - 1 ensures !(s[i] == '-' && s[i + 1] == '-') {
        if i > n {
          assert s[i] == rest[i - n - 1] && s[i + 1] == rest[i - n];
        }
      }
      assert s[|s| - 1] == rest[|rest| - 1];
    }
  }

  lemma {:induction false} SlugIsMadeOfRuns(s: string) returns (runs: seq<string>)
    requires IsWorkspaceSlug(s)
    ensures AreRuns(runs) && Hyphenated(runs) == s
    decreases |s|
  {
    var k := Find(s, {'-'});
    if k == |s| {
      runs := [s];
    } else {
      var rest := s[k + 1..];
      assert k < |s| - 1;
      assert rest[0] == s[k + 1] && rest[|rest| - 1] == s[|s| - 1];
      assert forall i :: 0 <= i < |rest| ==> rest[i] == s[k + 1 + i];
      var more := SlugIsMadeOfRuns(rest);
      runs := [s[..k]] + more;
      assert runs[1..] == more;
      assert s == s[..k] + ['-'] + rest;
    }
  }

  /** A slug is runs of lower-case letters and digits, joined by single hyphens. */
  lemma SlugIsExact(s: string)
    ensures IsWorkspaceSlug(s) <==> exists runs :: AreRuns(runs) && Hyphenated(runs) == s
  {
    hide IsWorkspaceSlug, Hyphenated, IsRun;
    if IsWorkspaceSlug(s) {
      var runs := SlugIsMadeOfRuns(s);
    }
    if runs :| AreRuns(runs) && Hyphenated(runs) == s {
      RunsMakeSlug(runs);
    }
  }

  /** A name of a gateway: lower-case letters, digits and hyphens, but no hyphen at either end. */
  predicate IsPlainName(s: string) {
    s != "" && (forall i :: 0 <= i < |s| ==> 'a' <= s[i] <= 'z' || '0' <= s[i] <= '9' || s[i] == '-')
    && s[0] != '-' && s[|s| - 1] != '-'
  }

  /** A route is a slug, or a slug and the name of a gateway with an at sign between. */
  lemma RouteIsExact(s: string)
    ensures IsWorkspaceRoute(s) <==>
      IsWorkspaceSlug(s)
      || exists slug, name :: s == slug + ['@'] + name && IsWorkspaceSlug(slug) && IsPlainName(name)
  {
    var at := Find(s, {'@'});
    if at < |s| {
      assert s == s[..at] + ['@'] + s[at + 1..];
      assert IsGatewayName(s[at + 1..]) <==> IsPlainName(s[at + 1..]);
    }
    if slug, name :| s == slug + ['@'] + name && IsWorkspaceSlug(slug) && IsPlainName(name) {
      assert forall i :: 0 <= i < |slug| ==> s[i] == slug[i] != '@';
      FindExactly(s, {'@'}, |slug|);
      assert s[..|slug|] == slug && s[|slug| + 1..] == name;
    }
    if IsWorkspaceSlug(s) {
      FindExactly(s, {'@'}, |s|);
    }
  }

  /** What follows the scheme of a gateway's URL, which may be in any case. */
  predicate AfterScheme(url: string, after: string) {
    || (StartsWithIgnoringCase(url, HTTP) && url[|HTTP|..] == after)
    || (StartsWithIgnoringCase(url, HTTPS) && url[|HTTPS|..] == after)
  }

  /** The URL is that of a gateway, and below its authority lies the segment, up to the next
      slash, query or fragment. */
  ghost predicate IsUrlOn(url: string, authority: string, segment: string, rest: string) {
    && AfterScheme(url, authority + ['/'] + segment + rest)
    && (forall i :: 0 <= i < |authority| ==> authority[i] !in PATH_STOPS)
    && (rest != "" ==> rest[0] in PATH_STOPS)
  }

  lemma SchemeIsExact(url: string, after: string)
    ensures StripHttpScheme(url) == Some(after) <==> AfterScheme(url, after)
  {
    if StartsWithIgnoringCase(url, HTTPS) {
      assert Lower(url[4]) == HTTPS[4] != HTTP[4];
    }
  }

  lemma SegmentIsServed(url: string, authority: string, workspace: string, rest: string)
    requires IsWorkspaceRoute(workspace) && IsUrlOn(url, authority, workspace, rest)
    ensures WindowWorkspace(url) == Some(workspace)
  {
    var after := authority + ['/'] + workspace + rest;
    SchemeIsExact(url, after);
    RouteHasNoStop(workspace);
    hide IsWorkspaceRoute, StripHttpScheme, AfterScheme;
    FindExactly(after, PATH_STOPS, |authority|);
    var path := after[|authority| + 1..];
    assert path == workspace + rest;
    FindExactly(path, PATH_STOPS, |workspace|);
    assert path[..|workspace|] == workspace;
  }

  lemma ServedIsSegment(url: string, workspace: string)
    requires WindowWorkspace(url) == Some(workspace)
    ensures IsWorkspaceRoute(workspace) && exists authority, rest :: IsUrlOn(url, authority, workspace, rest)
  {
    var after := StripHttpScheme(url).value;
    SchemeIsExact(url, after);
    hide IsWorkspaceRoute, StripHttpScheme, AfterScheme;
    var i := Find(after, PATH_STOPS);
    var path := after[i + 1..];
    var rest := path[|workspace|..];
    InPieces(after, i, workspace, rest);
    hide Find;
    assert IsUrlOn(url, after[..i], workspace, rest);
  }

  lemma InPieces(after: string, i: nat, segment: string, rest: string)
    requires i < |after| && after[i] == '/' && |segment| <= |after[i + 1..]|
    requires after[i + 1..][..|segment|] == segment && after[i + 1..][|segment|..] == rest
    ensures after == after[..i] + ['/'] + segment + rest
  {
    assert after[i + 1..] == segment + rest;
  }

  /** A window serves a workspace iff its URL is one on that segment, and the segment is a route. */
  lemma WorkspaceIsExact(url: string, workspace: string)
    ensures WindowWorkspace(url) == Some(workspace) <==>
      IsWorkspaceRoute(workspace) && exists authority, rest :: IsUrlOn(url, authority, workspace, rest)
  {
    hide IsWorkspaceRoute, WindowWorkspace, IsUrlOn;
    if WindowWorkspace(url) == Some(workspace) {
      ServedIsSegment(url, workspace);
    }
    if authority, rest :| IsWorkspaceRoute(workspace) && IsUrlOn(url, authority, workspace, rest) {
      SegmentIsServed(url, authority, workspace, rest);
    }
  }
}

/** The record of open windows, from crates/lucidos-app/src/window_session.rs. */
module WindowSession {
  import opened Wrappers
  import opened WindowTarget

  const MAIN := "main"
  const APP_WINDOW_PREFIX := "window-"

  datatype Frame = Frame(x: int, y: int, width: nat, height: nat)

  datatype OpenWindow = OpenWindow(recorded: Option<string>, workspace: string, frame: Option<Frame>)

  datatype Session = Session(open: seq<OpenWindow>, geometry: map<string, Frame>)

  /** A recorded window that may be put back. */
  datatype RestoredWindow = RestoredWindow(recorded: Option<string>, workspace: string, frame: Option<Frame>) {
    predicate MainMayTake() {
      recorded == None || recorded == Some(MAIN)
    }
  }

  predicate IsHexDigit(c: char) {
    '0' <= c <= '9' || 'a' <= c <= 'f'
  }

  /** Could this build have given a window that name? */
  predicate IsRestorableName(name: string) {
    || name == MAIN
    || (APP_WINDOW_PREFIX <= name
        && |name| == |APP_WINDOW_PREFIX| + 32
        && forall i :: |APP_WINDOW_PREFIX| <= i < |name| ==> IsHexDigit(name[i]))
  }

  /** Such a name is `main`, or the prefix of a window and 32 hexadecimal digits. */
  lemma RestorableIsExact(name: string)
    ensures IsRestorableName(name) <==>
      name == "main"
      || exists digits :: name == "window-" + digits && |digits| == 32
                          && forall i :: 0 <= i < 32 ==> '0' <= digits[i] <= '9' || 'a' <= digits[i] <= 'f'
  {
    if APP_WINDOW_PREFIX <= name {
      var digits := name[|APP_WINDOW_PREFIX|..];
      assert name == "window-" + digits;
      assert forall i :: 0 <= i < |digits| ==> digits[i] == name[|APP_WINDOW_PREFIX| + i];
    }
  }

  /** The entries that may come back, each name going to the first that claims it. */
  function Validated(open: seq<OpenWindow>, geometry: map<string, Frame>, taken: set<string>): seq<RestoredWindow> {
    if open == [] then []
    else
      var e := open[0];
      if !IsWorkspaceRoute(e.workspace) then Validated(open[1..], geometry, taken)
      else
        var name := if e.recorded.Some? && IsRestorableName(e.recorded.value) && e.recorded.value !in taken
                    then e.recorded else None;
        var frame := if e.frame.Some? then e.frame
                     else if e.workspace in geometry then Some(geometry[e.workspace]) else None;
        [RestoredWindow(name, e.workspace, frame)]
        + Validated(open[1..], geometry, if name.Some? then taken + {name.value} else taken)
  }

  function OnlyMain(plan: seq<RestoredWindow>, wanted: bool): seq<RestoredWindow> {
    if plan == [] then []
    else (if (plan[0].recorded == Some(MAIN)) == wanted then [plan[0]] else []) + OnlyMain(plan[1..], wanted)
  }

  /** The windows to put back: the one recorded as `main` first, the rest in order. */
  function RestorePlan(session: Session): seq<RestoredWindow> {
    var plan := Validated(session.open, session.geometry, {});
    OnlyMain(plan, true) + OnlyMain(plan, false)
  }

  /** What the rest of the client relies on. */
  ghost predicate IsRestorePlan(plan: seq<RestoredWindow>) {
    && (forall w :: w in plan ==> IsWorkspaceRoute(w.workspace) && (w.recorded.Some? ==> IsRestorableName(w.recorded.value)))
    && (forall i, j :: 0 <= i < j < |plan| && plan[i].recorded.Some? ==> plan[i].recorded != plan[j].recorded)
    && (forall i :: 0 < i < |plan| ==> plan[i].recorded != Some(MAIN))
  }

  ghost predicate NamesAreNew(plan: seq<RestoredWindow>, taken: set<string>) {
    && (forall w :: w in plan ==> IsWorkspaceRoute(w.workspace))
    && (forall w :: w in plan && w.recorded.Some? ==> IsRestorableName(w.recorded.value) && w.recorded.value !in taken)
    && (forall i, j :: 0 <= i < j < |plan| && plan[i].recorded.Some? ==> plan[i].recorded != plan[j].recorded)
  }

  lemma {:induction false} ValidatedNames(open: seq<OpenWindow>, geometry: map<string, Frame>, taken: set<string>)
    ensures NamesAreNew(Validated(open, geometry, taken), taken)
    decreases |open|
  {
    hide IsRestorableName, IsWorkspaceRoute;
    if open != [] {
      var e := open[0];
      if !IsWorkspaceRoute(e.workspace) {
        ValidatedNames(open[1..], geometry, taken);
      } else {
        var name := Validated(open, geometry, taken)[0].recorded;
        var rest := if name.Some? then taken + {name.value} else taken;
        ValidatedNames(open[1..], geometry, rest);
      }
    }
  }

  lemma {:induction false} OnlyMainMembers(plan: seq<RestoredWindow>, wanted: bool)
    ensures forall w :: w in OnlyMain(plan, wanted) <==> w in plan && (w.recorded == Some(MAIN)) == wanted
    decreases |plan|
  {
    if plan != [] {
      OnlyMainMembers(plan[1..], wanted);
    }
  }

  ghost predicate NamesDiffer(plan: seq<RestoredWindow>) {
    forall i, j :: 0 <= i < j < |plan| && plan[i].recorded.Some? ==> plan[i].recorded != plan[j].recorded
  }

  lemma {:induction false} OnlyMainDiffers(plan: seq<RestoredWindow>, wanted: bool)
    requires NamesDiffer(plan)
    ensures NamesDiffer(OnlyMain(plan, wanted))
    decreases |plan|
  {
    if plan != [] {
      assert NamesDiffer(plan[1..]);
      OnlyMainDiffers(plan[1..], wanted);
      OnlyMainMembers(plan[1..], wanted);
      var rest := OnlyMain(plan[1..], wanted);
      forall j | 0 <= j < |rest| && plan[0].recorded.Some? ensures rest[j].recorded != plan[0].recorded {
        assert rest[j] in plan[1..];
        var k :| 0 <= k < |plan[1..]| && plan[1..][k] == rest[j];
        assert plan[k + 1] == rest[j];
      }
    }
  }

  lemma RestorePlanIsValid(session: Session)
    ensures IsRestorePlan(RestorePlan(session))
  {
    hide IsRestorableName, IsWorkspaceRoute;
    var plan := Validated(session.open, session.geometry, {});
    ValidatedNames(session.open, session.geometry, {});
    OnlyMainMembers(plan, true);
    OnlyMainMembers(plan, false);
    OnlyMainDiffers(plan, true);
    OnlyMainDiffers(plan, false);
    hide Validated, OnlyMain;
    var a, b := OnlyMain(plan, true), OnlyMain(plan, false);
    var all := a + b;
    forall i, j | 0 <= i < j < |all| && all[i].recorded.Some? ensures all[i].recorded != all[j].recorded {
      if i < |a| && j >= |a| {
        assert all[i] in a && all[j] in b;
      }
    }
    forall i | 0 < i < |all| ensures all[i].recorded != Some(MAIN) {
      if i >= |a| {
        assert all[i] in b;
      } else {
        assert all[0] in a;
      }
    }
  }

  // ---- What comes back ----

  /** An earlier entry that comes back asks for the name. */
  ghost predicate ClaimedBefore(open: seq<OpenWindow>, i: nat, name: string)
    requires i <= |open|
  {
    exists j :: 0 <= j < i && IsWorkspaceRoute(open[j].workspace) && open[j].recorded == Some(name)
  }

  /** The window that entry `i` comes back as: on its workspace; under its name, if this build
      could have given it and no earlier entry has it; at its own frame, else its workspace's. */
  ghost function BackAs(session: Session, i: nat): RestoredWindow
    requires i < |session.open|
  {
    var e := session.open[i];
    RestoredWindow(
      if e.recorded.Some? && IsRestorableName(e.recorded.value) && !ClaimedBefore(session.open, i, e.recorded.value)
      then e.recorded else None,
      e.workspace,
      if e.frame.Some? then e.frame
      else if e.workspace in session.geometry then Some(session.geometry[e.workspace]) else None)
  }

  /** Every entry on a workspace comes back, in the record's order. */
  ghost function AllBack(session: Session, i: nat): seq<RestoredWindow>
    requires i <= |session.open|
    decreases |session.open| - i
  {
    if i == |session.open| then []
    else (if IsWorkspaceRoute(session.open[i].workspace) then [BackAs(session, i)] else []) + AllBack(session, i + 1)
  }

  lemma {:induction false} ValidatedIsAllBack(session: Session, i: nat, taken: set<string>)
    requires i <= |session.open|
    requires forall n :: n in taken <==> IsRestorableName(n) && ClaimedBefore(session.open, i, n)
    ensures Validated(session.open[i..], session.geometry, taken) == AllBack(session, i)
    decreases |session.open| - i
  {
    hide IsRestorableName, IsWorkspaceRoute, ClaimedBefore;
    if i < |session.open| {
      var e := session.open[i];
      assert session.open[i..][0] == e && session.open[i..][1..] == session.open[i + 1..];
      forall n ensures ClaimedBefore(session.open, i + 1, n)
                   <==> ClaimedBefore(session.open, i, n) || (IsWorkspaceRoute(e.workspace) && e.recorded == Some(n)) {
        OneMoreClaim(session.open, i, n);
      }
      if IsWorkspaceRoute(e.workspace) {
        var name := BackAs(session, i).recorded;
        var more := if name.Some? then taken + {name.value} else taken;
        ValidatedIsAllBack(session, i + 1, more);
      } else {
        ValidatedIsAllBack(session, i + 1, taken);
      }
    }
  }

  lemma OneMoreClaim(open: seq<OpenWindow>, i: nat, name: string)
    requires i < |open|
    ensures ClaimedBefore(open, i + 1, name)
        <==> ClaimedBefore(open, i, name) || (IsWorkspaceRoute(open[i].workspace) && open[i].recorded == Some(name))
  {
    hide IsWorkspaceRoute;
    if ClaimedBefore(open, i, name) {
      var j :| 0 <= j < i && IsWorkspaceRoute(open[j].workspace) && open[j].recorded == Some(name);
      assert j < i + 1;
    }
  }

  lemma {:induction false} OnlyMainSplits(plan: seq<RestoredWindow>, m: nat)
    requires m < |plan| && NamesDiffer(plan) && plan[m].recorded == Some(MAIN)
    ensures OnlyMain(plan, true) == [plan[m]] && OnlyMain(plan, false) == plan[..m] + plan[m + 1..]
    decreases |plan|
  {
    if m == 0 {
      NoMainLeft(plan[1..]);
    } else {
      assert NamesDiffer(plan[1..]);
      assert plan[0].recorded != Some(MAIN);
      OnlyMainSplits(plan[1..], m - 1);
      assert plan[1..][..m - 1] == plan[1..m] && plan[1..][m..] == plan[m + 1..];
    }
  }

  lemma {:induction false} NoMainLeft(plan: seq<RestoredWindow>)
    requires forall w :: w in plan ==> w.recorded != Some(MAIN)
    ensures OnlyMain(plan, true) == [] && OnlyMain(plan, false) == plan
    decreases |plan|
  {
    if plan != [] {
      NoMainLeft(plan[1..]);
    }
  }

  /** The plan is every entry on a workspace, once, in the record's order; but for the one that
      comes back as `main`, which goes first. */
  lemma RestorePlanIsExact(session: Session)
    ensures
      var all := AllBack(session, 0);
      && ((forall w :: w in all ==> w.recorded != Some(MAIN)) ==> RestorePlan(session) == all)
      && forall m :: 0 <= m < |all| && all[m].recorded == Some(MAIN) ==>
           RestorePlan(session) == [all[m]] + all[..m] + all[m + 1..]
  {
    hide IsRestorableName, IsWorkspaceRoute;
    assert session.open[0..] == session.open;
    ValidatedIsAllBack(session, 0, {});
    ValidatedNames(session.open, session.geometry, {});
    hide Validated, AllBack;
    MainGoesFirst(AllBack(session, 0));
  }

  lemma MainGoesFirst(all: seq<RestoredWindow>)
    requires NamesDiffer(all)
    ensures (forall w :: w in all ==> w.recorded != Some(MAIN)) ==> OnlyMain(all, true) + OnlyMain(all, false) == all
    ensures forall m :: 0 <= m < |all| && all[m].recorded == Some(MAIN) ==>
      OnlyMain(all, true) + OnlyMain(all, false) == [all[m]] + all[..m] + all[m + 1..]
  {
    hide OnlyMain;
    if forall w :: w in all ==> w.recorded != Some(MAIN) {
      NoMainLeft(all);
      assert [] + all == all;
    }
    forall m | 0 <= m < |all| && all[m].recorded == Some(MAIN)
      ensures OnlyMain(all, true) + OnlyMain(all, false) == [all[m]] + all[..m] + all[m + 1..]
    {
      OnlyMainSplits(all, m);
      assert [all[m]] + (all[..m] + all[m + 1..]) == [all[m]] + all[..m] + all[m + 1..];
    }
  }
}

/** `reopen_plan` and `launch_plan` of crates/lucidos-app/src/desktop.rs, and what
    applying a reopen plan does to the windows (crates/lucidos-app/src/app_window.rs). */
module WindowPlans {
  import opened Wrappers
  import opened WindowTarget
  import opened WindowSession

  /** One live app window. */
  datatype LiveWindow = LiveWindow(name: string, url: string, visible: bool)

  datatype PlannedWindow = PlannedWindow(url: string, recorded: Option<string>, frame: Option<Frame>)

  datatype ReopenPlan = ReopenPlan(
    show: seq<string>, navigateMain: Option<PlannedWindow>, build: seq<PlannedWindow>, front: Option<string>)

  /** The extra window that rebuilds an entry. Only the declared window is `main`. */
  function Planned(origin: string, w: RestoredWindow): PlannedWindow {
    PlannedWindow(WorkspaceUrl(origin, w.workspace), if w.recorded == Some(MAIN) then None else w.recorded, w.frame)
  }

  function AllPlanned(origin: string, ws: seq<RestoredWindow>): (r: seq<PlannedWindow>)
    ensures |r| == |ws| && forall i :: 0 <= i < |ws| ==> r[i] == Planned(origin, ws[i])
  {
    if ws == [] then [] else [Planned(origin, ws[0])] + AllPlanned(origin, ws[1..])
  }

  // ---- The order windows are shown in ----

  predicate LexLess(a: string, b: string) {
    if b == "" then false
    else if a == "" then true
    else a[0] < b[0] || (a[0] == b[0] && LexLess(a[1..], b[1..]))
  }

  /** `main` before any other name, the rest alphabetically. */
  predicate Before(a: string, b: string) {
    (a == MAIN && b != MAIN) || ((a == MAIN <==> b == MAIN) && LexLess(a, b))
  }

  function Insert(w: LiveWindow, ordered: seq<LiveWindow>): seq<LiveWindow> {
    if ordered == [] || !Before(ordered[0].name, w.name) then [w] + ordered
    else [ordered[0]] + Insert(w, ordered[1..])
  }

  function Ordered(live: seq<LiveWindow>): seq<LiveWindow> {
    if live == [] then [] else Insert(live[0], Ordered(live[1..]))
  }

  function Hidden(ordered: seq<LiveWindow>): seq<string> {
    if ordered == [] then []
    else (if ordered[0].visible then [] else [ordered[0].name]) + Hidden(ordered[1..])
  }

  ghost predicate NamesUnique(live: seq<LiveWindow>) {
    forall i, j :: 0 <= i < j < |live| ==> live[i].name != live[j].name
  }

  predicate Worn(live: seq<LiveWindow>, name: string) {
    exists i :: 0 <= i < |live| && live[i].name == name
  }

  predicate Served(live: seq<LiveWindow>, workspace: string) {
    exists i :: 0 <= i < |live| && WindowWorkspace(live[i].url) == Some(workspace)
  }

  function MainOf(live: seq<LiveWindow>): (r: Option<LiveWindow>)
    ensures r.Some? <==> Worn(live, MAIN)
    ensures r.Some? ==> r.value in live && r.value.name == MAIN
  {
    if live == [] then None else if live[0].name == MAIN then Some(live[0])
    else
      assert Worn(live[1..], MAIN) ==> Worn(live, MAIN) by {
        if Worn(live[1..], MAIN) {
          var i :| 0 <= i < |live[1..]| && live[1..][i].name == MAIN;
          assert live[i + 1].name == MAIN;
        }
      }
      MainOf(live[1..])
  }

  // ---- reopen_plan ----

  /** What the record still owes, given the live windows. */
  predicate IsOwed(live: seq<LiveWindow>, w: RestoredWindow) {
    match w.recorded
    case Some(name) => !Worn(live, name)
    case None => !Served(live, w.workspace)
  }

  function OwedOf(plan: seq<RestoredWindow>, live: seq<LiveWindow>): seq<RestoredWindow> {
    if plan == [] then []
    else
      var rest := OwedOf(plan[..|plan| - 1], live);
      var w := plan[|plan| - 1];
      if IsOwed(live, w) then rest + [w] else rest
  }

  /** The record's entry for a live `main`. */
  function RecordedMain(plan: seq<RestoredWindow>, live: seq<LiveWindow>): Option<RestoredWindow> {
    if plan == [] || !Worn(live, MAIN) then None
    else if plan[|plan| - 1].recorded == Some(MAIN) then Some(plan[|plan| - 1])
    else RecordedMain(plan[..|plan| - 1], live)
  }

  function FirstTakeable(owed: seq<RestoredWindow>): (r: nat)
    ensures r <= |owed| && (r < |owed| ==> owed[r].MainMayTake()) && forall i :: 0 <= i < r ==> !owed[i].MainMayTake()
  {
    if owed == [] || owed[0].MainMayTake() then 0 else 1 + FirstTakeable(owed[1..])
  }

  predicate Booting(live: seq<LiveWindow>) {
    var main := MainOf(live);
    main.Some? && !WindowIsNavigated(main.value.url)
  }

  predicate Adrift(live: seq<LiveWindow>) {
    var main := MainOf(live);
    main.Some? && WindowWorkspace(main.value.url).None?
  }

  function ReopenPlanOf(live: seq<LiveWindow>, session: Session, origin: string): ReopenPlan {
    var ordered := Ordered(live);
    var show := Hidden(ordered);
    var main := MainOf(live);
    var plan := if Booting(live) then [] else RestorePlan(session);
    var owed := OwedOf(plan, live);
    var recorded := RecordedMain(plan, live);
    var k := FirstTakeable(owed);
    var (target, left) :=
      if !Adrift(live) then (None, owed)
      else if recorded.Some? then (recorded, owed)
      else if k < |owed| then (Some(owed[k]), owed[..k] + owed[k + 1..])
      else (None, owed);
    ReopenPlan(
      show,
      if target.Some? then Some(PlannedWindow(WorkspaceUrl(origin, target.value.workspace), None, target.value.frame)) else None,
      AllPlanned(origin, left),
      if main.Some? then Some(main.value.name) else if show != [] then Some(show[0]) else None)
  }

  /** The loop over the record. */
  method CollectOwed(plan: seq<RestoredWindow>, live: seq<LiveWindow>)
    returns (owed: seq<RestoredWindow>, recorded: Option<RestoredWindow>)
    ensures owed == OwedOf(plan, live) && recorded == RecordedMain(plan, live)
  {
    owed, recorded := [], None;
    for i := 0 to |plan|
      invariant owed == OwedOf(plan[..i], live) && recorded == RecordedMain(plan[..i], live)
    {
      var w := plan[i];
      assert plan[..i + 1][..i] == plan[..i];
      match w.recorded
      case Some(name) =>
        if name == MAIN && Worn(live, MAIN) {
          recorded := Some(w);
        } else if !Worn(live, name) {
          owed := owed + [w];
        }
      case None =>
        if !Served(live, w.workspace) {
          owed := owed + [w];
        }
    }
    assert plan[..|plan|] == plan;
  }

  method PlanReopen(live: seq<LiveWindow>, session: Session, origin: string) returns (plan: ReopenPlan)
    ensures plan == ReopenPlanOf(live, session, origin)
  {
    hide Hidden, Ordered, RestorePlan, OwedOf, RecordedMain, Booting, Adrift, WorkspaceUrl, AllPlanned, FirstTakeable, MainOf;
    var show := Hidden(Ordered(live));
    var main := MainOf(live);
    var owed, recorded := CollectOwed(if Booting(live) then [] else RestorePlan(session), live);
    var target: Option<RestoredWindow> := None;
    if Adrift(live) {
      target := recorded;
      if target.None? {
        var k := FirstTakeable(owed);
        if k < |owed| {
          target := Some(owed[k]);
          owed := owed[..k] + owed[k + 1..];
        }
      }
    }
    plan := ReopenPlan(
      show,
      if target.Some? then Some(PlannedWindow(WorkspaceUrl(origin, target.value.workspace), None, target.value.frame)) else None,
      AllPlanned(origin, owed),
      if main.Some? then Some(main.value.name) else if show != [] then Some(show[0]) else None);
  }

  // ---- Applying a plan ----

  function Navigated(live: seq<LiveWindow>, url: string): (r: seq<LiveWindow>)
    ensures |r| == |live|
    ensures forall i :: 0 <= i < |live| ==> r[i] == if live[i].name == MAIN then live[i].(url := url) else live[i]
  {
    seq(|live|, i requires 0 <= i < |live| => if live[i].name == MAIN then live[i].(url := url) else live[i])
  }

  function Shown(live: seq<LiveWindow>, names: seq<string>): (r: seq<LiveWindow>)
    ensures |r| == |live|
    ensures forall i :: 0 <= i < |live| ==> r[i] == if live[i].name in names then live[i].(visible := true) else live[i]
  {
    seq(|live|, i requires 0 <= i < |live| => if live[i].name in names then live[i].(visible := true) else live[i])
  }

  /** The recorded name where it may be reused, else the next minted one. */
  function NameForNewWindow(live: seq<LiveWindow>, recorded: Option<string>, minted: string): string {
    if recorded.Some? && recorded.value != MAIN && IsRestorableName(recorded.value) && !Worn(live, recorded.value)
    then recorded.value else minted
  }

  function Built(live: seq<LiveWindow>, build: seq<PlannedWindow>, minted: seq<string>): seq<LiveWindow>
    requires |minted| == |build|
    decreases |build|
  {
    if build == [] then live
    else
      var name := NameForNewWindow(live, build[0].recorded, minted[0]);
      Built(live + [LiveWindow(name, build[0].url, true)], build[1..], minted[1..])
  }

  function Applied(live: seq<LiveWindow>, plan: ReopenPlan, minted: seq<string>): seq<LiveWindow>
    requires |minted| == |plan.build|
  {
    var navigated := if plan.navigateMain.Some? then Navigated(live, plan.navigateMain.value.url) else live;
    Built(Shown(navigated, plan.show), plan.build, minted)
  }

  /** The same when a window may fail to be made: its address does not parse, or its build
      fails. */
  function BuiltWhere(live: seq<LiveWindow>, build: seq<PlannedWindow>, minted: seq<string>, made: seq<bool>): seq<LiveWindow>
    requires |minted| == |made| == |build|
    decreases |build|
  {
    if build == [] then live
    else
      var name := NameForNewWindow(live, build[0].recorded, minted[0]);
      BuiltWhere(if made[0] then live + [LiveWindow(name, build[0].url, true)] else live, build[1..], minted[1..], made[1..])
  }

  lemma {:induction false} AllMade(live: seq<LiveWindow>, build: seq<PlannedWindow>, minted: seq<string>, made: seq<bool>)
    requires |minted| == |made| == |build| && forall i :: 0 <= i < |made| ==> made[i]
    ensures BuiltWhere(live, build, minted, made) == Built(live, build, minted)
    decreases |build|
  {
    if build != [] {
      var name := NameForNewWindow(live, build[0].recorded, minted[0]);
      AllMade(live + [LiveWindow(name, build[0].url, true)], build[1..], minted[1..], made[1..]);
    }
  }

  /** The windows after a reopen, all builds succeeding: with no window to front and none
      built, one more is made. */
  function Reopened(live: seq<LiveWindow>, plan: ReopenPlan, minted: seq<string>, spare: LiveWindow): seq<LiveWindow>
    requires |minted| == |plan.build|
  {
    Applied(live, plan, minted) + if plan.front.None? && plan.build == [] then [spare] else []
  }

  function ReopenedWhere(live: seq<LiveWindow>, plan: ReopenPlan, minted: seq<string>, made: seq<bool>,
                         spare: Option<LiveWindow>)
    : seq<LiveWindow>
    requires |minted| == |made| == |plan.build|
  {
    var navigated := if plan.navigateMain.Some? then Navigated(live, plan.navigateMain.value.url) else live;
    BuiltWhere(Shown(navigated, plan.show), plan.build, minted, made)
    + if plan.front.None? && plan.build == [] && spare.Some? then [spare.value] else []
  }

  /** When every window can be made, this is the reopen that the theorems are about. */
  lemma AllMadeReopens(live: seq<LiveWindow>, plan: ReopenPlan, minted: seq<string>, made: seq<bool>, spare: LiveWindow)
    requires |minted| == |made| == |plan.build| && forall i :: 0 <= i < |made| ==> made[i]
    ensures ReopenedWhere(live, plan, minted, made, Some(spare)) == Reopened(live, plan, minted, spare)
  {
    var navigated := if plan.navigateMain.Some? then Navigated(live, plan.navigateMain.value.url) else live;
    AllMade(Shown(navigated, plan.show), plan.build, minted, made);
  }

  /** Names minted for new windows: no two alike, and none worn, recorded or `main`. */
  ghost predicate AreFresh(minted: seq<string>, live: seq<LiveWindow>, plan: seq<RestoredWindow>) {
    && (forall i, j :: 0 <= i < j < |minted| ==> minted[i] != minted[j])
    && (forall i :: 0 <= i < |minted| ==> minted[i] != MAIN && !Worn(live, minted[i]))
    && (forall i, w :: 0 <= i < |minted| && w in plan ==> w.recorded != Some(minted[i]))
  }

  class Desk {
    var windows: seq<LiveWindow>

    /** `reopen_client`: plan against the live windows, point `main`, show, build, and make
        a spare window when there is none to front and none to build. `made` says which
        builds succeed, and `spare` is the window made last, if it can be made. The answer
        is the window that is brought to the front. */
    method ReopenClient(session: Session, origin: string, minted: seq<string>, made: seq<bool>, spare: Option<LiveWindow>)
      returns (front: Option<string>)
      requires |minted| == |made| == |ReopenPlanOf(windows, session, origin).build|
      modifies this
      ensures windows == ReopenedWhere(old(windows), ReopenPlanOf(old(windows), session, origin), minted, made, spare)
      ensures front == ReopenPlanOf(old(windows), session, origin).front
    {
      hide BuiltWhere, ReopenPlanOf;
      var plan := PlanReopen(windows, session, origin);
      if plan.navigateMain.Some? {
        windows := Navigated(windows, plan.navigateMain.value.url);
      }
      windows := Shown(windows, plan.show);
      RestoreExtraWindows(plan.build, minted, made);
      if plan.front.None? && plan.build == [] && spare.Some? {
        windows := windows + [spare.value];
      }
      front := plan.front;
    }

    method RestoreExtraWindows(build: seq<PlannedWindow>, minted: seq<string>, made: seq<bool>)
      requires |minted| == |made| == |build|
      modifies this
      ensures windows == BuiltWhere(old(windows), build, minted, made)
    {
      assert build[0..] == build && minted[0..] == minted && made[0..] == made;
      for i := 0 to |build|
        invariant BuiltWhere(windows, build[i..], minted[i..], made[i..]) == BuiltWhere(old(windows), build, minted, made)
      {
        assert build[i..][1..] == build[i + 1..] && minted[i..][1..] == minted[i + 1..] && made[i..][1..] == made[i + 1..];
        if !made[i] {
          continue;
        }
        var name := NameForNewWindow(windows, build[i].recorded, minted[i]);
        windows := windows + [LiveWindow(name, build[i].url, true)];
      }
    }
  }
}
