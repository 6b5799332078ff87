/** The dependency graph of scripts/engine-module-graph.py: walks, reachability,
    and what it means to lie on a cycle. */
module Digraph {
  datatype Unit = Unit(name: string)

  /** `edges[u][v]` counts the references from unit `u` to unit `v`. */
  type Edges = map<Unit, map<Unit, nat>>

  predicate Edge(g: Edges, u: Unit, v: Unit) {
    u in g && v in g[u]
  }

  function Targets(g: Edges, u: Unit): set<Unit> {
    if u in g then g[u].Keys else {}
  }

  ghost predicate Walk(g: Edges, p: seq<Unit>) {
    |p| > 0 && forall i :: 0 <= i < |p| - 1 ==> Edge(g, p[i], p[i + 1])
  }

  ghost predicate WalkFromTo(g: Edges, p: seq<Unit>, a: Unit, b: Unit) {
    Walk(g, p) && p[0] == a && p[|p| - 1] == b
  }

  ghost predicate Reach(g: Edges, a: Unit, b: Unit) {
    exists p :: WalkFromTo(g, p, a, b)
  }

  /** `u` lies on a cycle: some walk of at least one edge leaves `u` and returns. */
  ghost predicate OnCycle(g: Edges, u: Unit) {
    exists p :: WalkFromTo(g, p, u, u) && |p| > 1
  }

  lemma ReachRefl(g: Edges, a: Unit)
    ensures Reach(g, a, a)
  {
    assert WalkFromTo(g, [a], a, a);
  }

  lemma ReachTrans(g: Edges, a: Unit, b: Unit, c: Unit)
    requires Reach(g, a, b) && Reach(g, b, c)
    ensures Reach(g, a, c)
  {
    var p :| WalkFromTo(g, p, a, b);
    var q :| WalkFromTo(g, q, b, c);
    var r := p + q[1..];
    forall i | 0 <= i < |r| - 1 ensures Edge(g, r[i], r[i + 1]) {
      if i < |p| - 1 {
        assert r[i] == p[i] && r[i + 1] == p[i + 1];
      } else {
        assert r[i] == q[i - |p| + 1] && r[i + 1] == q[i - |p| + 2];
      }
    }
    assert WalkFromTo(g, r, a, c);
  }

  lemma ReachEdge(g: Edges, a: Unit, b: Unit)
    requires Edge(g, a, b)
    ensures Reach(g, a, b)
  {
    assert WalkFromTo(g, [a, b], a, b);
  }

  lemma ReachThenEdge(g: Edges, a: Unit, b: Unit, c: Unit)
    requires Reach(g, a, b) && Edge(g, b, c)
    ensures Reach(g, a, c)
  {
    ReachEdge(g, b, c);
    ReachTrans(g, a, b, c);
  }

  /** A set that no edge leaves is one no walk leaves. */
  lemma {:induction false} WalkStaysIn(g: Edges, S: set<Unit>, p: seq<Unit>)
    requires Walk(g, p) && p[0] in S
    requires forall u, w :: u in S && Edge(g, u, w) ==> w in S
    ensures forall i :: 0 <= i < |p| ==> p[i] in S
  {
    if |p| > 1 {
      var q := p[1..];
      assert Edge(g, p[0], p[1]);
      forall i | 0 <= i < |q| - 1 ensures Edge(g, q[i], q[i + 1]) {
        assert q[i] == p[i + 1] && q[i + 1] == p[i + 2];
      }
      WalkStaysIn(g, S, q);
      assert forall i :: 1 <= i < |p| ==> p[i] == q[i - 1];
    }
  }

  lemma ReachStaysIn(g: Edges, S: set<Unit>, a: Unit, b: Unit)
    requires a in S && Reach(g, a, b)
    requires forall u, w :: u in S && Edge(g, u, w) ==> w in S
    ensures b in S
  {
    var p :| WalkFromTo(g, p, a, b);
    WalkStaysIn(g, S, p);
  }
}

/** Tarjan's search as scripts/engine-module-graph.py runs it. */
module Tarjan {
  import opened Sequences
  import opened Digraph

  ghost function Elements(c: seq<Unit>): set<Unit> {
    set u | u in c
  }

  ghost function Done(out: seq<seq<Unit>>): set<Unit> {
    set k, u | 0 <= k < |out| && u in out[k] :: u
  }

  /** What the search has recorded, `low` aside. */
  datatype State = State(
    index: map<Unit, nat>, counter: nat, stack: seq<Unit>, onStack: set<Unit>, out: seq<seq<Unit>>)

  /** The stack holds the discovered units no component took yet, oldest first. */
  ghost predicate Shape(s: State) {
    && s.onStack == Elements(s.stack)
    && Done(s.out) !! s.onStack
    && s.index.Keys == Done(s.out) + s.onStack
    && (forall u :: u in s.index ==> s.index[u] < s.counter)
    && (forall i, j :: 0 <= i < j < |s.stack| ==> s.index[s.stack[i]] < s.index[s.stack[j]])
  }

  /** The emitted components are disjoint lists of mutually reachable units, and
      every edge out of one leads to it or to one emitted before it. */
  ghost predicate Emitted(g: Edges, out: seq<seq<Unit>>) {
    && (forall k :: 0 <= k < |out| ==> out[k] != [] && NoDuplicates(out[k]))
    && (forall j, k, u :: 0 <= j < k < |out| && u in out[j] ==> u !in out[k])
    && (forall k, u, w :: 0 <= k < |out| && u in out[k] && w in out[k] ==> Reach(g, u, w))
    && (forall k, u, w {:trigger out[k], Edge(g, u, w)} ::
          0 <= k < |out| && u in out[k] && Edge(g, u, w) ==> w in Done(out[..k + 1]))
  }

  /** `y` reaches a unit that was discovered no later and is still being visited. */
  ghost predicate HasAnchor(g: Edges, s: State, gray: set<Unit>, y: Unit)
    requires s.onStack <= s.index.Keys && gray <= s.onStack && y in s.onStack
  {
    exists x :: x in gray && s.index[x] <= s.index[y] && Reach(g, y, x)
  }

  lemma Anchor(g: Edges, s: State, gray: set<Unit>, y: Unit) returns (x: Unit)
    requires s.onStack <= s.index.Keys && gray <= s.onStack && y in s.onStack
    requires HasAnchor(g, s, gray, y)
    ensures x in gray && s.index[x] <= s.index[y] && Reach(g, y, x)
  {
    x :| x in gray && s.index[x] <= s.index[y] && Reach(g, y, x);
  }

  lemma IsAnchor(g: Edges, s: State, gray: set<Unit>, y: Unit, x: Unit)
    requires s.onStack <= s.index.Keys && gray <= s.onStack && y in s.onStack
    requires x in gray && s.index[x] <= s.index[y] && Reach(g, y, x)
    ensures HasAnchor(g, s, gray, y)
  {
  }

  /** `gray` are the units whose visit is under way. */
  ghost predicate Colored(g: Edges, s: State, gray: set<Unit>)
    requires Shape(s)
  {
    && gray <= s.onStack
    && (forall u, w {:trigger Edge(g, u, w)} :: u in s.index && u !in gray && Edge(g, u, w) ==> w in s.index)
    && (forall y {:trigger HasAnchor(g, s, gray, y)} :: y in s.onStack ==> HasAnchor(g, s, gray, y))
    && (forall x, y {:trigger Reach(g, x, y)} ::
          x in gray && y in s.onStack && s.index[x] <= s.index[y] ==> Reach(g, x, y))
  }

  ghost predicate Inv(g: Edges, s: State, gray: set<Unit>) {
    Shape(s) && Emitted(g, s.out) && Colored(g, s, gray)
  }

  /** What a visit leaves alone. */
  ghost predicate Grown(s: State, t: State) {
    && (forall u :: u in s.index ==> u in t.index && t.index[u] == s.index[u])
    && (forall u :: u in t.index && u !in s.index ==> t.index[u] >= s.counter)
    && (forall u :: u in t.onStack && u in s.index ==> u in s.onStack)
    && s.counter <= t.counter
    && s.stack <= t.stack
    && s.out <= t.out
  }

  /** `l` is the index of a stacked unit that `v` reaches. */
  ghost predicate LowWitness(g: Edges, s: State, v: Unit, l: nat) {
    exists t :: t in s.onStack && t in s.index && s.index[t] == l && Reach(g, v, t)
  }

  /** No edge from a unit stacked since `v` into the stack below `v` beats `l`. */
  ghost predicate LowBound(g: Edges, s: State, v: Unit, l: nat)
    requires s.onStack <= s.index.Keys && v in s.index
  {
    forall u, t {:trigger Edge(g, u, t)} ::
      (u in s.onStack && t in s.onStack && s.index[t] < s.index[v] <= s.index[u] && Edge(g, u, t)) ==> l <= s.index[t]
  }

  /** `LowBound`, while the edges from `v` to `remaining` are still to be looked at. */
  ghost predicate LowBoundBut(g: Edges, s: State, v: Unit, l: nat, remaining: set<Unit>)
    requires s.onStack <= s.index.Keys && v in s.index
  {
    forall u, t {:trigger Edge(g, u, t)} ::
      (u in s.onStack && t in s.onStack && s.index[t] < s.index[v] <= s.index[u] && Edge(g, u, t)
       && !(u == v && t in remaining)) ==> l <= s.index[t]
  }

  function Min(a: nat, b: nat): nat {
    if b < a then b else a
  }

  /** Folding a visited child's low-link into its parent's. */
  lemma AfterChild(g: Edges, s: State, t: State, v: Unit, w: Unit, l: nat, lw: nat, remaining: set<Unit>)
    requires Shape(s) && Shape(t) && Grown(s, t)
    requires v in s.onStack && w !in s.index && w in t.index && t.index[w] == s.counter
    requires Edge(g, v, w) && l <= s.index[v] && lw <= t.index[w]
    requires LowWitness(g, s, v, l) && LowBoundBut(g, s, v, l, remaining + {w})
    requires LowBound(g, t, w, lw)
    requires if w in t.onStack then LowWitness(g, t, w, lw) else lw == t.index[w]
    ensures v in t.onStack
    ensures LowWitness(g, t, v, Min(l, lw)) && LowBoundBut(g, t, v, Min(l, lw), remaining)
  {
    StackStays(s, t);
    AfterChildWitness(g, s, t, v, w, l, lw);
    AfterChildBound(g, s, t, v, w, l, lw, remaining);
  }

  lemma AfterChildWitness(g: Edges, s: State, t: State, v: Unit, w: Unit, l: nat, lw: nat)
    requires Shape(s) && Shape(t) && Grown(s, t)
    requires v in s.onStack && w in t.index && Edge(g, v, w) && l <= s.index[v] < t.index[w]
    requires LowWitness(g, s, v, l)
    requires if w in t.onStack then LowWitness(g, t, w, lw) else lw == t.index[w]
    ensures LowWitness(g, t, v, Min(l, lw))
  {
    hide Reach, Done;
    StackStays(s, t);
    var x :| x in s.onStack && x in s.index && s.index[x] == l && Reach(g, v, x);
    assert x in t.onStack && t.index[x] == l;
    if lw < l {
      var y :| y in t.onStack && y in t.index && t.index[y] == lw && Reach(g, w, y);
      ReachEdge(g, v, w);
      ReachTrans(g, v, w, y);
    }
  }

  lemma AfterChildBound(g: Edges, s: State, t: State, v: Unit, w: Unit, l: nat, lw: nat, remaining: set<Unit>)
    requires Shape(s) && Shape(t) && Grown(s, t)
    requires v in s.onStack && w in t.index && t.index[w] == s.counter
    requires LowBoundBut(g, s, v, l, remaining + {w}) && LowBound(g, t, w, lw)
    ensures LowBoundBut(g, t, v, Min(l, lw), remaining)
  {
    hide Reach, Done, Elements;
    forall u, x {:trigger Edge(g, u, x)} |
      u in t.onStack && x in t.onStack && t.index[x] < t.index[v] <= t.index[u] && Edge(g, u, x)
      && !(u == v && x in remaining)
      ensures Min(l, lw) <= t.index[x]
    {
      assert x in s.onStack && t.index[x] == s.index[x];
      if u in s.index {
        assert u in s.onStack;
      }
    }
  }

  lemma StackStays(s: State, t: State)
    requires Shape(s) && Shape(t) && s.stack <= t.stack
    ensures s.onStack <= t.onStack
  {
    forall u | u in s.onStack ensures u in t.onStack {
      var i :| 0 <= i < |s.stack| && s.stack[i] == u;
      assert t.stack[i] == u;
    }
  }

  lemma PushKeeps(g: Edges, s: State, t: State, v: Unit, gray: set<Unit>)
    requires Inv(g, s, gray) && v !in s.index
    requires forall x :: x in gray ==> Reach(g, x, v)
    requires t == State(s.index[v := s.counter], s.counter + 1, s.stack + [v], s.onStack + {v}, s.out)
    ensures Inv(g, t, gray + {v}) && Grown(s, t)
  {
    hide Reach, Emitted, HasAnchor, Done;
    ReachRefl(g, v);
    assert t.stack[|s.stack|] == v;
    assert t.onStack == Elements(t.stack);
    forall y | y in t.onStack
      ensures HasAnchor(g, t, gray + {v}, y)
    {
      if y == v {
        IsAnchor(g, t, gray + {v}, y, v);
      } else {
        assert HasAnchor(g, s, gray, y);
        var x := Anchor(g, s, gray, y);
        IsAnchor(g, t, gray + {v}, y, x);
      }
    }
  }

  lemma InDone(out: seq<seq<Unit>>, k: nat, u: Unit)
    requires k < |out| && u in out[k]
    ensures u in Done(out)
  {
  }

  lemma DoneAppend(out: seq<seq<Unit>>, c: seq<Unit>)
    ensures Done(out + [c]) == Done(out) + Elements(c)
  {
    var o := out + [c];
    forall u | u in Done(o) ensures u in Done(out) || u in c {
      var k :| 0 <= k < |o| && u in o[k];
      if k < |out| { assert u in out[k]; }
    }
    forall u | u in Done(out) || u in c ensures u in Done(o) {
      if u in Done(out) {
        var k :| 0 <= k < |out| && u in out[k];
        assert o[k] == out[k];
      } else {
        assert o[|out|] == c;
      }
    }
  }

  /** Every unit stacked since `v` reaches `v`, and `v` reaches it. */
  lemma SegmentIsConnected(g: Edges, s: State, gray: set<Unit>, v: Unit, y: Unit)
    requires Inv(g, s, gray) && v in gray
    requires forall x :: x in gray ==> s.index[x] <= s.index[v]
    requires y in s.onStack && s.index[v] <= s.index[y]
    ensures Reach(g, v, y) && Reach(g, y, v)
  {
    hide Reach, Emitted, HasAnchor, Done;
    assert HasAnchor(g, s, gray, y);
    var x := Anchor(g, s, gray, y);
    ReachTrans(g, y, x, v);
  }

  /** The component a finished root takes off the stack: `v` and all above it. */
  ghost predicate IsSegment(s: State, v: Unit, k: nat, c: seq<Unit>) {
    && k < |s.stack| && s.stack[k] == v
    && |c| == |s.stack| - k
    && (forall i :: 0 <= i < |c| ==> c[i] == s.stack[|s.stack| - 1 - i])
  }

  lemma SegmentMembers(s: State, v: Unit, k: nat, c: seq<Unit>)
    requires Shape(s) && IsSegment(s, v, k, c)
    ensures forall u :: u in c <==> u in s.onStack && s.index[v] <= s.index[u]
    ensures forall u :: u in s.stack[..k] <==> u in s.onStack && s.index[u] < s.index[v]
    ensures NoDuplicates(c)
  {
    hide Done;
    SegmentIsYounger(s, v, k, c);
    BelowIsOlder(s, v, k);
  }

  lemma SegmentIsYounger(s: State, v: Unit, k: nat, c: seq<Unit>)
    requires Shape(s) && IsSegment(s, v, k, c)
    ensures forall u :: u in c <==> u in s.onStack && s.index[v] <= s.index[u]
    ensures NoDuplicates(c)
  {
    hide Done;
    forall u | u in s.onStack ensures u in c <==> s.index[v] <= s.index[u] {
      var i :| 0 <= i < |s.stack| && s.stack[i] == u;
      if i >= k {
        assert c[|s.stack| - 1 - i] == u;
      }
    }
  }

  lemma BelowIsOlder(s: State, v: Unit, k: nat)
    requires Shape(s) && k < |s.stack| && s.stack[k] == v
    ensures forall u :: u in s.stack[..k] <==> u in s.onStack && s.index[u] < s.index[v]
  {
    hide Done;
    forall u | u in s.onStack ensures u in s.stack[..k] <==> s.index[u] < s.index[v] {
      var i :| 0 <= i < |s.stack| && s.stack[i] == u;
      if i < k {
        assert s.stack[..k][i] == u;
      }
    }
  }

  ghost predicate Finished(g: Edges, s: State, gray: set<Unit>, v: Unit, l: nat) {
    && Inv(g, s, gray + {v}) && v !in gray
    && v in s.onStack
    && (forall x :: x in gray ==> s.index[x] < s.index[v])
    && (forall w :: Edge(g, v, w) ==> w in s.index)
    && l <= s.index[v]
    && LowWitness(g, s, v, l)
    && LowBound(g, s, v, l)
  }

  lemma EmittedAppend(g: Edges, s: State, gray: set<Unit>, v: Unit, k: nat, c: seq<Unit>)
    requires v in s.index && Finished(g, s, gray, v, s.index[v]) && IsSegment(s, v, k, c)
    ensures Emitted(g, s.out + [c])
  {
    hide Reach, HasAnchor, Done;
    SegmentMembers(s, v, k, c);
    DoneAppend(s.out, c);
    var out := s.out + [c];
    forall i, u, w | 0 <= i < |out| && u in out[i] && w in out[i] ensures Reach(g, u, w) {
      if i == |s.out| {
        SegmentIsConnected(g, s, gray + {v}, v, u);
        SegmentIsConnected(g, s, gray + {v}, v, w);
        ReachTrans(g, u, v, w);
      }
    }
    forall i, u, w | 0 <= i < |out| && u in out[i] && Edge(g, u, w) ensures w in Done(out[..i + 1]) {
      if i < |s.out| {
        assert out[..i + 1] == s.out[..i + 1];
      } else {
        assert out[..i + 1] == out;
      }
    }
    assert v in c;
    forall i, j, u | 0 <= i < j < |out| && u in out[i] ensures u !in out[j] {
      if j == |s.out| {
        InDone(s.out, i, u);
      }
    }
  }

  /** `low[v] == index[v]`: the segment above `v` is a finished component. */
  lemma EmitKeeps(g: Edges, s: State, t: State, gray: set<Unit>, v: Unit, k: nat, c: seq<Unit>)
    requires v in s.index && Finished(g, s, gray, v, s.index[v]) && IsSegment(s, v, k, c)
    requires t == State(s.index, s.counter, s.stack[..k], Elements(s.stack[..k]), s.out + [c])
    ensures Inv(g, t, gray)
  {
    hide Reach, Emitted, HasAnchor, Done;
    SegmentMembers(s, v, k, c);
    DoneAppend(s.out, c);
    EmittedAppend(g, s, gray, v, k, c);
    forall y | y in t.onStack
      ensures HasAnchor(g, t, gray, y)
    {
      assert HasAnchor(g, s, gray + {v}, y);
      var x := Anchor(g, s, gray + {v}, y);
      IsAnchor(g, t, gray, y, x);
    }
    forall i, j | 0 <= i < j < |t.stack| ensures t.index[t.stack[i]] < t.index[t.stack[j]] {
      assert s.index[s.stack[i]] < s.index[s.stack[j]];
    }
  }

  /** `low[v] < index[v]`: `v` stays on the stack, and hangs off an older gray unit. */
  lemma BlackenKeeps(g: Edges, s: State, gray: set<Unit>, v: Unit, l: nat)
    requires Finished(g, s, gray, v, l) && l < s.index[v]
    ensures Inv(g, s, gray)
  {
    hide Reach, Emitted, HasAnchor, Done;
    var t :| t in s.onStack && s.index[t] == l && Reach(g, v, t);
    assert HasAnchor(g, s, gray + {v}, t);
    var x' := Anchor(g, s, gray + {v}, t);
    ReachTrans(g, v, t, x');
    forall y | y in s.onStack
      ensures HasAnchor(g, s, gray, y)
    {
      assert HasAnchor(g, s, gray + {v}, y);
      var x := Anchor(g, s, gray + {v}, y);
      if x == v {
        ReachTrans(g, y, v, x');
        IsAnchor(g, s, gray, y, x');
      } else {
        IsAnchor(g, s, gray, y, x);
      }
    }
  }

  /** What a whole visit of `v` does, from `s` to `t`, answering the low-link `l`. */
  ghost predicate Visited(g: Edges, s: State, t: State, gray: set<Unit>, v: Unit, l: nat) {
    && Inv(g, t, gray) && Grown(s, t)
    && v in t.index && t.index[v] == s.counter && l <= t.index[v]
    && (if v in t.onStack then LowWitness(g, t, v, l) else l == t.index[v])
    && LowBound(g, t, v, l)
  }

  /** A visit of `v` that began in `s` and has the edges to `remaining` left. */
  ghost predicate Visiting(g: Edges, s: State, t: State, gray: set<Unit>, v: Unit, l: nat, remaining: set<Unit>) {
    && Inv(g, s, gray) && Inv(g, t, gray + {v}) && Grown(s, t)
    && v !in s.index && v in t.index && t.index[v] == s.counter
    && |s.stack| < |t.stack| && t.stack[|s.stack|] == v
    && l <= t.index[v]
    && LowWitness(g, t, v, l) && LowBoundBut(g, t, v, l, remaining)
    && (forall w {:trigger Edge(g, v, w)} :: Edge(g, v, w) && w !in remaining ==> w in t.index)
    && (forall x :: x in gray ==> Reach(g, x, v))
  }

  lemma VisitingStarts(g: Edges, s: State, t: State, gray: set<Unit>, v: Unit)
    requires Inv(g, s, gray) && v !in s.index
    requires forall x :: x in gray ==> Reach(g, x, v)
    requires t == State(s.index[v := s.counter], s.counter + 1, s.stack + [v], s.onStack + {v}, s.out)
    ensures Visiting(g, s, t, gray, v, s.counter, Targets(g, v))
  {
    hide Emitted, Reach, Colored, Done;
    PushKeeps(g, s, t, v, gray);
    ReachRefl(g, v);
  }

  lemma VisitingChild(g: Edges, s: State, t: State, u: State, gray: set<Unit>, v: Unit, l: nat,
                      remaining: set<Unit>, w: Unit, lw: nat)
    requires Visiting(g, s, t, gray, v, l, remaining + {w})
    requires Edge(g, v, w) && w !in t.index && Visited(g, t, u, gray + {v}, w, lw)
    ensures Visiting(g, s, u, gray, v, Min(l, lw), remaining)
  {
    hide Emitted, Reach, Colored, Done, LowWitness, LowBound, LowBoundBut, HasAnchor;
    assert v in t.onStack;
    AfterChild(g, t, u, v, w, l, lw, remaining);
  }

  lemma VisitingStacked(g: Edges, s: State, t: State, gray: set<Unit>, v: Unit, l: nat,
                        remaining: set<Unit>, w: Unit)
    requires Visiting(g, s, t, gray, v, l, remaining + {w})
    requires Edge(g, v, w) && w in t.onStack
    ensures w in t.index && Visiting(g, s, t, gray, v, Min(l, t.index[w]), remaining)
  {
    hide Emitted, Reach, Colored, Done, HasAnchor;
    ReachEdge(g, v, w);
  }

  lemma VisitingEmitted(g: Edges, s: State, t: State, gray: set<Unit>, v: Unit, l: nat,
                        remaining: set<Unit>, w: Unit)
    requires Visiting(g, s, t, gray, v, l, remaining + {w})
    requires w in t.index && w !in t.onStack
    ensures Visiting(g, s, t, gray, v, l, remaining)
  {
    hide Emitted, Reach, Colored, Done, HasAnchor;
  }

  lemma VisitingIsFinished(g: Edges, s: State, t: State, gray: set<Unit>, v: Unit, l: nat)
    requires Visiting(g, s, t, gray, v, l, {})
    ensures Finished(g, t, gray, v, l)
  {
    hide Emitted, Reach, Done, HasAnchor;
    assert v in t.onStack;
    forall x | x in gray ensures t.index[x] < t.index[v] {
      assert x in s.index;
    }
  }

  lemma VisitedByEmitting(g: Edges, s: State, t: State, u: State, gray: set<Unit>, v: Unit, c: seq<Unit>)
    requires v in t.index && Visiting(g, s, t, gray, v, t.index[v], {})
    requires IsSegment(t, v, |s.stack|, c)
    requires u == State(t.index, t.counter, t.stack[..|s.stack|], Elements(t.stack[..|s.stack|]), t.out + [c])
    ensures Visited(g, s, u, gray, v, t.index[v])
  {
    hide Emitted, Reach, Done, HasAnchor, Colored;
    VisitingIsFinished(g, s, t, gray, v, t.index[v]);
    EmitKeeps(g, t, u, gray, v, |s.stack|, c);
    SegmentMembers(t, v, |s.stack|, c);
  }

  lemma VisitedByBlackening(g: Edges, s: State, t: State, gray: set<Unit>, v: Unit, l: nat)
    requires Visiting(g, s, t, gray, v, l, {}) && l < t.index[v]
    ensures Visited(g, s, t, gray, v, l)
  {
    hide Emitted, Reach, Done, HasAnchor, Colored;
    VisitingIsFinished(g, s, t, gray, v, l);
    BlackenKeeps(g, t, gray, v, l);
  }

  /** What the search itself relies on while it visits `v`. */
  lemma VisitingMeans(g: Edges, s: State, t: State, gray: set<Unit>, v: Unit, l: nat, remaining: set<Unit>)
    requires Visiting(g, s, t, gray, v, l, remaining)
    ensures Inv(g, t, gray + {v}) && Shape(t) && v in t.index && l <= t.index[v]
    ensures |s.stack| < |t.stack| && t.stack[|s.stack|] == v && t.stack[..|s.stack|] == s.stack
    ensures forall x :: x in gray ==> Reach(g, x, v)
  {
    hide Emitted, Reach, Colored, Done, LowWitness, LowBoundBut, Shape;
  }

  lemma VisitedMeans(g: Edges, s: State, t: State, gray: set<Unit>, v: Unit, l: nat)
    requires Visited(g, s, t, gray, v, l)
    ensures forall u :: u in s.index ==> u in t.index
    ensures v in t.index
  {
    hide Emitted, Reach, Colored, Done, LowWitness, LowBound, Shape;
  }

  /** What was recorded before is recorded still. */
  ghost predicate Extends(before: map<Unit, nat>, now: map<Unit, nat>) {
    forall u :: u in before ==> u in now && now[u] == before[u]
  }

  lemma ExtendsByNew(before: map<Unit, nat>, now: map<Unit, nat>, v: Unit)
    requires v !in before && v in now && now == before[v := now[v]]
    ensures Extends(before, now)
  {
  }

  lemma ExtendsFurther(before: map<Unit, nat>, mid: map<Unit, nat>, now: map<Unit, nat>, v: Unit)
    requires Extends(before, mid) && v !in before
    requires forall u :: u in mid && u != v ==> u in now && now[u] == mid[u]
    ensures Extends(before, now)
  {
  }

  lemma FewerLeft(universe: set<Unit>, before: set<Unit>, now: set<Unit>, v: Unit)
    requires before <= now && v in now && v !in before && v in universe
    ensures universe - now < universe - before
  {
  }

  class Search {
    const edges: Edges
    ghost const universe: set<Unit>
    var index: map<Unit, nat>
    var low: map<Unit, nat>
    var stack: seq<Unit>
    var onStack: set<Unit>
    var out: seq<seq<Unit>>
    var counter: nat

    ghost function View(): State
      reads this
    {
      State(index, counter, stack, onStack, out)
    }

    /** Every unit the search has met is one the graph names. */
    ghost predicate Bounded()
      reads this
    {
      && low.Keys == index.Keys <= universe
      && (forall u, w {:trigger Edge(edges, u, w)} :: u in universe && Edge(edges, u, w) ==> w in universe)
    }

    constructor (edges: Edges, ghost universe: set<Unit>)
      requires forall u, w {:trigger Edge(edges, u, w)} :: u in universe && Edge(edges, u, w) ==> w in universe
      ensures Inv(edges, View(), {}) && Bounded()
      ensures this.edges == edges && this.universe == universe
      ensures index == map[] && out == []
    {
      this.edges, this.universe := edges, universe;
      index, low, stack, onStack, out, counter := map[], map[], [], {}, [], 0;
    }

    method Visit(v: Unit, ghost gray: set<Unit>)
      requires Inv(edges, View(), gray) && Bounded()
      requires v in universe && v !in index
      requires forall x :: x in gray ==> Reach(edges, x, v)
      modifies this
      ensures Bounded() && v in index && Visited(edges, old(View()), View(), gray, v, low[v])
      ensures Extends(old(low), low)
      decreases universe - index.Keys, 0
    {
      hide Reach, Emitted, Shape, Colored, LowWitness, LowBound, LowBoundBut, Grown, IsSegment, Elements, Done, Visiting,
           Visited, Inv, Extends;
      ghost var s0, low0 := View(), low;
      index, low := index[v := counter], low[v := counter];
      counter := counter + 1;
      stack := stack + [v];
      onStack := onStack + {v};
      VisitingStarts(edges, s0, View(), gray, v);
      ExtendsByNew(low0, low, v);
      var remaining := Targets(edges, v);
      while remaining != {}
        invariant Bounded() && old(index.Keys) <= index.Keys && v in index
        invariant remaining <= Targets(edges, v)
        invariant Visiting(edges, s0, View(), gray, v, low[v], remaining)
        invariant Extends(low0, low)
        decreases remaining
      {
        var w :| w in remaining;
        assert remaining == (remaining - {w}) + {w};
        remaining := remaining - {w};
        FewerLeft(universe, old(index.Keys), index.Keys, v);
        ghost var low1 := low;
        FollowEdge(v, w, s0, gray, remaining);
        ExtendsFurther(low0, low1, low, v);
      }
      VisitingMeans(edges, s0, View(), gray, v, low[v], {});
      if low[v] == index[v] {
        ghost var s1 := View();
        var component := PopThrough(v, |s0.stack|);
        out := out + [component];
        VisitedByEmitting(edges, s0, s1, View(), gray, v, component);
      } else {
        VisitedByBlackening(edges, s0, View(), gray, v, low[v]);
      }
    }

    /** One turn of the loop over the edges of `v`. */
    method FollowEdge(v: Unit, w: Unit, ghost s0: State, ghost gray: set<Unit>, ghost remaining: set<Unit>)
      requires Bounded() && v in index && v in universe && Edge(edges, v, w)
      requires Visiting(edges, s0, View(), gray, v, low[v], remaining + {w})
      modifies this
      ensures Bounded() && v in index && old(index.Keys) <= index.Keys
      ensures Visiting(edges, s0, View(), gray, v, low[v], remaining)
      ensures forall u :: u in old(low) && u != v ==> u in low && low[u] == old(low[u])
      decreases universe - index.Keys, 1
    {
      hide Reach, Emitted, Shape, Colored, LowWitness, LowBound, LowBoundBut, Grown, IsSegment, Elements, Done, Visiting,
           Visited, Inv;
      ghost var s1, l := View(), low[v];
      VisitingMeans(edges, s0, s1, gray, v, l, remaining + {w});
      if w !in index {
        CallerReaches(edges, gray, v, w);
        Visit(w, gray + {v});
        VisitedMeans(edges, s1, View(), gray + {v}, w, low[w]);
        VisitingChild(edges, s0, s1, View(), gray, v, l, remaining, w, low[w]);
        low := low[v := Min(low[v], low[w])];
      } else if w in onStack {
        VisitingStacked(edges, s0, s1, gray, v, l, remaining, w);
        low := low[v := Min(low[v], index[w])];
      } else {
        VisitingEmitted(edges, s0, s1, gray, v, l, remaining, w);
      }
    }

    /** The pop loop that ends a component, `v` being at depth `k` of the stack. */
    method PopThrough(v: Unit, ghost k: nat) returns (component: seq<Unit>)
      requires Shape(View())
      requires k < |stack| && stack[k] == v
      modifies this`stack, this`onStack
      ensures IsSegment(old(View()), v, k, component)
      ensures stack == old(stack)[..k] && onStack == Elements(stack)
    {
      hide Shape, Done, Elements;
      ghost var s := View();
      StackElements(s);
      assert stack == s.stack[..|stack|];
      component := [];
      while true
        invariant k < |stack| <= |s.stack| && stack == s.stack[..|stack|]
        invariant onStack == Elements(stack)
        invariant |component| == |s.stack| - |stack|
        invariant forall i :: 0 <= i < |component| ==> component[i] == s.stack[|s.stack| - 1 - i]
        decreases |stack|
      {
        var w := stack[|stack| - 1];
        PopOne(s, stack, v, k);
        stack := stack[..|stack| - 1];
        onStack := onStack - {w};
        component := component + [w];
        if w == v {
          break;
        }
      }
    }
  }

  /** Taking the top off a duplicate-free stack removes exactly that unit. */
  lemma PopOne(s: State, stack: seq<Unit>, v: Unit, k: nat)
    requires Shape(s) && k < |stack| <= |s.stack| && stack == s.stack[..|stack|] && stack[k] == v
    ensures Elements(stack[..|stack| - 1]) == Elements(stack) - {stack[|stack| - 1]}
    ensures stack[|stack| - 1] == v <==> k == |stack| - 1
  {
    var top := |stack| - 1;
    BelowTheTop(s, stack);
    ElementsPop(stack);
  }

  lemma BelowTheTop(s: State, stack: seq<Unit>)
    requires Shape(s) && 0 < |stack| <= |s.stack| && stack == s.stack[..|stack|]
    ensures forall i :: 0 <= i < |stack| - 1 ==> stack[i] != stack[|stack| - 1]
  {
    hide Done;
    var top := |stack| - 1;
    forall i | 0 <= i < top ensures stack[i] != stack[top] {
      assert s.index[s.stack[i]] < s.index[s.stack[top]];
    }
  }

  lemma ElementsPop(stack: seq<Unit>)
    requires 0 < |stack| && forall i :: 0 <= i < |stack| - 1 ==> stack[i] != stack[|stack| - 1]
    ensures Elements(stack[..|stack| - 1]) == Elements(stack) - {stack[|stack| - 1]}
  {
    var init, last := stack[..|stack| - 1], stack[|stack| - 1];
    assert stack == init + [last];
    assert last !in init;
  }

  lemma StackElements(s: State)
    requires Shape(s)
    ensures s.onStack == Elements(s.stack)
  {
  }

  lemma CallerReaches(g: Edges, gray: set<Unit>, v: Unit, w: Unit)
    requires Edge(g, v, w) && forall x :: x in gray ==> Reach(g, x, v)
    ensures forall x :: x in gray + {v} ==> Reach(g, x, w)
  {
    hide Reach;
    ReachRefl(g, v);
    forall x | x in gray + {v} ensures Reach(g, x, w) {
      ReachThenEdge(g, x, v, w);
    }
  }
}
