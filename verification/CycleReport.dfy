/** The report of scripts/engine-module-graph.py, end to end: clean the counted edges, search, and call a unit
    cyclic when its component holds another unit. */
module CycleReport {
  import opened Sequences
  import opened Digraph
  import opened Tarjan

  /** The units a search from `units` can meet. */
  ghost function Reachable(g: Edges, units: seq<Unit>): (r: set<Unit>)
    ensures forall u :: u in r <==> Met(g, units, u)
    ensures forall u, w {:trigger Edge(g, u, w)} :: u in r && Edge(g, u, w) ==> w in r
  {
    var named := Elements(units) + set u, w | u in g && w in g[u] :: w;
    var r := set u | u in named && Met(g, units, u);
    assert forall u :: Met(g, units, u) ==> u in r by {
      hide Reach;
      forall u, a | a in units && Reach(g, a, u) ensures u in named {
        ReachedIsNamed(g, a, u);
      }
    }
    assert forall u, w {:trigger Edge(g, u, w)} :: u in r && Edge(g, u, w) ==> w in r by {
      hide Reach;
      forall u, w | u in r && Edge(g, u, w) ensures w in r {
        var a :| a in units && Reach(g, a, u);
        ReachThenEdge(g, a, u, w);
        assert Met(g, units, w);
      }
    }
    r
  }

  lemma ReachedIsNamed(g: Edges, a: Unit, u: Unit)
    requires Reach(g, a, u)
    ensures u == a || exists x :: x in g && u in g[x]
  {
    var p :| WalkFromTo(g, p, a, u);
    if |p| > 1 {
      assert Edge(g, p[|p| - 2], p[|p| - 1]);
    }
  }

  ghost predicate Met(g: Edges, units: seq<Unit>, u: Unit) {
    exists a :: a in units && Reach(g, a, u)
  }

  ghost predicate Listed(out: seq<seq<Unit>>, u: Unit) {
    exists k :: 0 <= k < |out| && u in out[k]
  }

  /** `out` lists the strongly connected components of what `units` reach, and
      lists a component only after all those its edges lead to. */
  ghost predicate IsCondensation(g: Edges, units: seq<Unit>, out: seq<seq<Unit>>) {
    && (forall k :: 0 <= k < |out| ==> out[k] != [] && NoDuplicates(out[k]))
    && (forall u :: Listed(out, u) <==> Met(g, units, u))
    && (forall j, k, u, w :: 0 <= j < |out| && 0 <= k < |out| && u in out[j] && w in out[k] ==>
          (j == k <==> Reach(g, u, w) && Reach(g, w, u)))
    && (forall j, k, u, w :: 0 <= j < |out| && 0 <= k < |out| && u in out[j] && w in out[k] && Edge(g, u, w) ==> k <= j)
  }

  /** Everything reachable from a component was emitted with it or before it. */
  lemma ReachGoesBack(g: Edges, out: seq<seq<Unit>>, j: nat, k: nat, u: Unit, w: Unit)
    requires Emitted(g, out) && j < |out| && k < |out|
    requires u in out[j] && w in out[k] && Reach(g, u, w)
    ensures k <= j
  {
    hide Reach;
    var S := Done(out[..j + 1]);
    forall x, y | x in S && Edge(g, x, y) ensures y in S {
      var i :| 0 <= i < |out[..j + 1]| && x in out[..j + 1][i];
      assert x in out[i];
      var m :| 0 <= m < |out[..i + 1]| && y in out[..i + 1][m];
      assert out[..j + 1][m] == out[m];
    }
    assert out[..j + 1][j] == out[j];
    ReachStaysIn(g, S, u, w);
    var m :| 0 <= m < |out[..j + 1]| && w in out[..j + 1][m];
    assert w in out[m];
  }

  lemma EmittedIsCondensation(g: Edges, units: seq<Unit>, out: seq<seq<Unit>>)
    requires Emitted(g, out) && Done(out) == Reachable(g, units)
    ensures IsCondensation(g, units, out)
  {
    hide Reach, Met;
    forall u ensures Listed(out, u) <==> u in Done(out) {
    }
    forall j, k, u, w | 0 <= j < |out| && 0 <= k < |out| && u in out[j] && w in out[k]
      ensures j == k <==> Reach(g, u, w) && Reach(g, w, u)
      ensures Edge(g, u, w) ==> k <= j
    {
      if Reach(g, u, w) && Reach(g, w, u) {
        ReachGoesBack(g, out, j, k, u, w);
        ReachGoesBack(g, out, k, j, w, u);
      }
      if Edge(g, u, w) {
        ReachEdge(g, u, w);
        ReachGoesBack(g, out, j, k, u, w);
      }
    }
  }

  /** With no visit under way nothing is left on the stack. */
  lemma IdleIsDone(g: Edges, s: State)
    requires Inv(g, s, {})
    ensures s.index.Keys == Done(s.out)
    ensures forall u, w {:trigger Edge(g, u, w)} :: u in s.index && Edge(g, u, w) ==> w in s.index
  {
    hide Reach, Emitted, Done;
    if y :| y in s.onStack {
      var x := Anchor(g, s, {}, y);
    }
  }

  method StronglyConnected(units: seq<Unit>, edges: Edges) returns (out: seq<seq<Unit>>)
    ensures IsCondensation(edges, units, out)
  {
    hide Reach, Emitted, Colored, Shape, IsCondensation, Grown, LowBound, LowWitness, Done, Met, HasAnchor, Reachable;
    ghost var met := Reachable(edges, units);
    UnitsAreReachable(edges, units);
    var search := new Search(edges, met);
    var i := 0;
    while i < |units|
      invariant 0 <= i <= |units|
      invariant search.edges == edges && search.universe == met
      invariant Inv(edges, search.View(), {}) && search.Bounded()
      invariant forall k :: 0 <= k < i ==> units[k] in search.index
    {
      if units[i] !in search.index {
        ghost var s := search.View();
        search.Visit(units[i], {});
        GrownIndex(s, search.View());
      }
      i := i + 1;
    }
    out := search.out;
    IdleIsDone(edges, search.View());
    AllMet(edges, units, search.index.Keys);
    EmittedIsCondensation(edges, units, out);
  }

  lemma GrownIndex(s: State, t: State)
    requires Grown(s, t)
    ensures s.index.Keys <= t.index.Keys
  {
  }

  lemma AllMet(g: Edges, units: seq<Unit>, S: set<Unit>)
    requires forall u :: u in units ==> u in S
    requires forall u, w {:trigger Edge(g, u, w)} :: u in S && Edge(g, u, w) ==> w in S
    ensures Reachable(g, units) <= S
  {
    hide Reach;
    forall u | u in Reachable(g, units) ensures u in S {
      var a :| a in units && Reach(g, a, u);
      ReachStaysIn(g, S, a, u);
    }
  }

  lemma UnitsAreReachable(g: Edges, units: seq<Unit>)
    ensures forall u :: u in units ==> u in Reachable(g, units)
  {
    hide Reach;
    forall u | u in units ensures u in Reachable(g, units) {
      ReachRefl(g, u);
      assert Met(g, units, u);
    }
  }

  // ---- The edge clean-up ----

  /** Just the edges to another unit of the report are left, with their counts. */
  ghost predicate IsCleaned(counted: Edges, lines: set<Unit>, edges: Edges) {
    && edges.Keys == counted.Keys
    && (forall u, v :: Edge(edges, u, v) <==> Edge(counted, u, v) && u != v && v in lines)
    && (forall u, v :: Edge(edges, u, v) ==> edges[u][v] == counted[u][v])
  }

  /** The targets of one unit, with their counts, but for the given ones. */
  ghost predicate Lacks(counts: map<Unit, nat>, before: map<Unit, nat>, gone: set<Unit>) {
    counts.Keys == before.Keys - gone && forall t :: t in counts ==> counts[t] == before[t]
  }

  /** The targets that go: the unit itself, and what is no unit. */
  ghost function Strays(counts: map<Unit, nat>, unit: Unit, lines: set<Unit>): set<Unit> {
    set t | t in counts && (t == unit || t !in lines)
  }

  lemma AllPopped(counted: Edges, lines: set<Unit>, edges: Edges)
    requires edges.Keys == counted.Keys
    requires forall u :: u in counted ==> Lacks(edges[u], counted[u], Strays(counted[u], u, lines))
    ensures IsCleaned(counted, lines, edges)
  {
  }

  method CleanUp(counted: Edges, lines: set<Unit>) returns (edges: Edges)
    ensures IsCleaned(counted, lines, edges)
  {
    edges := counted;
    var pending := edges.Keys;
    while pending != {}
      invariant pending <= edges.Keys == counted.Keys
      invariant forall u :: u in counted ==>
        Lacks(edges[u], counted[u], if u in pending then {} else Strays(counted[u], u, lines))
      decreases pending
    {
      var unit :| unit in pending;
      pending := pending - {unit};
      edges := edges[unit := edges[unit] - {unit}];
      var dropped := set t | t in edges[unit] && t !in lines;
      while dropped != {}
        invariant unit in edges && edges.Keys == counted.Keys
        invariant forall u :: u in counted && u != unit ==>
          Lacks(edges[u], counted[u], if u in pending then {} else Strays(counted[u], u, lines))
        invariant dropped <= Strays(counted[unit], unit, lines)
        invariant Lacks(edges[unit], counted[unit], Strays(counted[unit], unit, lines) - dropped)
        decreases dropped
      {
        var target :| target in dropped;
        dropped := dropped - {target};
        edges := edges[unit := edges[unit] - {target}];
      }
    }
    AllPopped(counted, lines, edges);
  }

  // ---- Which units the report calls cyclic ----

  ghost predicate HasNoSelfEdge(g: Edges) {
    forall u :: !Edge(g, u, u)
  }

  /** Without self-edges, a cycle through `u` passes through another unit. */
  lemma CycleMeansCompany(g: Edges, u: Unit)
    requires HasNoSelfEdge(g)
    ensures OnCycle(g, u) <==> exists x :: x != u && Reach(g, u, x) && Reach(g, x, u)
  {
    if OnCycle(g, u) {
      var p :| WalkFromTo(g, p, u, u) && |p| > 1;
      assert Edge(g, p[0], p[1]);
      assert WalkFromTo(g, p[..2], u, p[1]);
      var q := p[1..];
      forall i | 0 <= i < |q| - 1 ensures Edge(g, q[i], q[i + 1]) {
        assert Edge(g, p[i + 1], p[i + 2]);
      }
      assert WalkFromTo(g, q, p[1], u);
      assert p[1] != u && Reach(g, u, p[1]) && Reach(g, p[1], u);
    }
    if x :| x != u && Reach(g, u, x) && Reach(g, x, u) {
      var p :| WalkFromTo(g, p, u, x);
      var q :| WalkFromTo(g, q, x, u);
      var r := p + q[1..];
      forall i | 0 <= i < |r| - 1 ensures Edge(g, r[i], r[i + 1]) {
        if i < |p| - 1 {
          assert Edge(g, p[i], p[i + 1]);
        } else {
          assert Edge(g, q[i - |p| + 1], q[i - |p| + 2]);
        }
      }
      assert WalkFromTo(g, r, u, u) && |r| > 1;
    }
  }

  /** A component of more than one unit is exactly a set of units on a cycle. */
  lemma LargeComponentIsCyclic(g: Edges, units: seq<Unit>, out: seq<seq<Unit>>, k: nat, u: Unit)
    requires IsCondensation(g, units, out) && HasNoSelfEdge(g)
    requires k < |out| && u in out[k]
    ensures |out[k]| > 1 <==> OnCycle(g, u)
  {
    hide Reach, OnCycle;
    CycleMeansCompany(g, u);
    if |out[k]| > 1 {
      var x := if out[k][0] == u then out[k][1] else out[k][0];
      assert out[k][0] != out[k][1] && x in out[k];
      assert Reach(g, u, x) && Reach(g, x, u);
    }
    if x :| x != u && Reach(g, u, x) && Reach(g, x, u) {
      assert Listed(out, u) && Met(g, units, u);
      var a :| a in units && Reach(g, a, u);
      ReachTrans(g, a, u, x);
      assert Met(g, units, x) && Listed(out, x);
      var j :| 0 <= j < |out| && x in out[j];
      assert j == k;
    }
  }

  // ---- The same on the graph as it was counted ----

  /** A walk of the counted graph that stays among the units. */
  ghost predicate WalkAmong(g: Edges, units: seq<Unit>, p: seq<Unit>) {
    Walk(g, p) && forall u :: u in p ==> u in units
  }

  ghost predicate ReachAmong(g: Edges, units: seq<Unit>, a: Unit, b: Unit) {
    exists p :: WalkAmong(g, units, p) && p[0] == a && p[|p| - 1] == b
  }

  /** The unit and another one reach each other along references between units. */
  ghost predicate InCompany(g: Edges, units: seq<Unit>, u: Unit) {
    u in units && exists x :: x != u && ReachAmong(g, units, u, x) && ReachAmong(g, units, x, u)
  }

  /** The clean-up takes no walk among the units away: it drops the steps that stay in place. */
  lemma {:induction false} WalkSurvives(counted: Edges, edges: Edges, units: seq<Unit>, p: seq<Unit>)
    requires IsCleaned(counted, Elements(units), edges) && WalkAmong(counted, units, p)
    ensures Reach(edges, p[0], p[|p| - 1])
    decreases |p|
  {
    ReachRefl(edges, p[0]);
    if |p| > 1 {
      var init := p[..|p| - 1];
      var u, v := p[|p| - 2], p[|p| - 1];
      assert forall x :: x in init ==> x in p;
      WalkSurvives(counted, edges, units, init);
      assert Edge(counted, u, v) && v in p;
      if u != v {
        hide IsCleaned, Reach;
        EdgeSurvives(counted, edges, units, u, v);
        ReachThenEdge(edges, p[0], u, v);
      }
    }
  }

  lemma EdgeSurvives(counted: Edges, edges: Edges, units: seq<Unit>, u: Unit, v: Unit)
    requires IsCleaned(counted, Elements(units), edges) && Edge(counted, u, v) && u != v && v in units
    ensures Edge(edges, u, v)
  {
  }

  lemma ReachIsReachAmong(counted: Edges, edges: Edges, units: seq<Unit>, a: Unit, b: Unit)
    requires IsCleaned(counted, Elements(units), edges) && a in units
    ensures Reach(edges, a, b) <==> ReachAmong(counted, units, a, b)
  {
    if Reach(edges, a, b) {
      var p :| WalkFromTo(edges, p, a, b);
      forall i | 0 <= i < |p| ensures p[i] in units {
        if i > 0 {
          assert Edge(edges, p[i - 1], p[i]);
        }
      }
      forall i | 0 <= i < |p| - 1 ensures Edge(counted, p[i], p[i + 1]) {
        assert Edge(edges, p[i], p[i + 1]);
      }
      assert WalkAmong(counted, units, p);
    }
    if ReachAmong(counted, units, a, b) {
      var p :| WalkAmong(counted, units, p) && p[0] == a && p[|p| - 1] == b;
      WalkSurvives(counted, edges, units, p);
    }
  }

  lemma OnCycleMeansInCompany(counted: Edges, edges: Edges, units: seq<Unit>, u: Unit)
    requires IsCleaned(counted, Elements(units), edges) && u in units
    ensures OnCycle(edges, u) <==> InCompany(counted, units, u)
  {
    hide Reach, ReachAmong, OnCycle;
    assert HasNoSelfEdge(edges);
    CycleMeansCompany(edges, u);
    forall x ensures Reach(edges, u, x) && Reach(edges, x, u)
                <==> ReachAmong(counted, units, u, x) && ReachAmong(counted, units, x, u) {
      ReachIsReachAmong(counted, edges, units, u, x);
      if Reach(edges, u, x) {
        EndIsAmong(counted, units, u, x);
      }
      if x in units {
        ReachIsReachAmong(counted, edges, units, x, u);
      } else {
        NoWayIn(counted, units, x, u);
      }
    }
  }

  lemma EndIsAmong(g: Edges, units: seq<Unit>, a: Unit, b: Unit)
    requires ReachAmong(g, units, a, b)
    ensures a in units && b in units
  {
  }

  lemma NoWayIn(g: Edges, units: seq<Unit>, a: Unit, b: Unit)
    requires a !in units
    ensures !ReachAmong(g, units, a, b)
  {
  }

  /** From counted references to the set of units inside some cycle. The units are the
      graph's, in the report's order. A unit is in the answer if and only if some other unit
      and it reach each other along counted references between units. */
  method UnitsInCycles(units: seq<Unit>, counted: Edges) returns (inCycle: set<Unit>)
    ensures forall u :: u in inCycle <==> InCompany(counted, units, u)
  {
    hide Reach, OnCycle, IsCondensation, InCompany;
    var lines := set u | u in units;
    var edges := CleanUp(counted, lines);
    assert lines == Elements(units);
    var components := StronglyConnected(units, edges);
    inCycle := set k, u | 0 <= k < |components| && |components[k]| > 1 && u in components[k] :: u;
    assert HasNoSelfEdge(edges);
    ComponentsPartition(edges, units, components);
    forall u ensures u in inCycle <==> InCompany(counted, units, u) {
      if u in units {
        assert Listed(components, u);
        var k :| 0 <= k < |components| && u in components[k];
        LargeComponentIsCyclic(edges, units, components, k, u);
        OnCycleMeansInCompany(counted, edges, units, u);
      } else {
        OnlyUnitsAreInCompany(counted, units, u);
      }
    }
  }

  lemma OnlyUnitsAreInCompany(g: Edges, units: seq<Unit>, u: Unit)
    requires u !in units
    ensures !InCompany(g, units, u)
  {
  }

  /** When every edge leads to a unit, the components partition exactly the units. */
  lemma ComponentsPartition(g: Edges, units: seq<Unit>, out: seq<seq<Unit>>)
    requires IsCondensation(g, units, out)
    requires forall u, w {:trigger Edge(g, u, w)} :: Edge(g, u, w) ==> w in units
    ensures forall u :: u in units <==> Listed(out, u)
    ensures forall j, k, u :: 0 <= j < |out| && 0 <= k < |out| && u in out[j] && u in out[k] ==> j == k
  {
    hide Reach;
    forall u ensures u in units <==> Met(g, units, u) {
      if u in units {
        ReachRefl(g, u);
        assert Met(g, units, u);
      }
      if a :| a in units && Reach(g, a, u) {
        ReachStaysIn(g, Elements(units), a, u);
      }
    }
    forall j, k, u | 0 <= j < |out| && 0 <= k < |out| && u in out[j] && u in out[k] ensures j == k {
      ReachRefl(g, u);
    }
  }
}
