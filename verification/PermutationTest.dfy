/** Choosing k of n, and one from each of several lists, in the order of Python's
    itertools: every choice comes, and comes once. */
module Choices {
  import opened Sequences

  function Prepend<T>(x: T, rests: seq<seq<T>>): (r: seq<seq<T>>)
    ensures |r| == |rests| && forall i :: 0 <= i < |r| ==> r[i] == [x] + rests[i]
  {
    seq(|rests|, i requires 0 <= i < |rests| => [x] + rests[i])
  }

  lemma PrependHolds<T(!new)>(x: T, rests: seq<seq<T>>, l: seq<T>)
    ensures l in Prepend(x, rests) <==> |l| > 0 && l[0] == x && l[1..] in rests
  {
    if l in Prepend(x, rests) {
      var i :| 0 <= i < |rests| && l == Prepend(x, rests)[i];
      assert l[1..] == rests[i];
    }
    if |l| > 0 && l[0] == x && l[1..] in rests {
      var i :| 0 <= i < |rests| && rests[i] == l[1..];
      assert Prepend(x, rests)[i] == [x] + l[1..] == l;
    }
  }

  lemma PrependDistinct<T(!new)>(x: T, rests: seq<seq<T>>)
    requires NoDuplicates(rests)
    ensures NoDuplicates(Prepend(x, rests))
  {
    forall i, j | 0 <= i < j < |rests| ensures Prepend(x, rests)[i] != Prepend(x, rests)[j] {
      assert Prepend(x, rests)[i][1..] == rests[i] && Prepend(x, rests)[j][1..] == rests[j];
    }
  }

  lemma AppendDistinct<T(!new)>(s: seq<T>, t: seq<T>)
    requires NoDuplicates(s) && NoDuplicates(t)
    requires forall x :: x in s ==> x !in t
    ensures NoDuplicates(s + t)
  {
    forall i, j | 0 <= i < j < |s + t| ensures (s + t)[i] != (s + t)[j] {
      if i < |s| <= j {
        assert s[i] in s && t[j - |s|] in t;
      }
    }
  }

  // ---- Combinations ----

  function Trues(l: seq<bool>): nat
    decreases |l|
  {
    if l == [] then 0 else (if l[0] then 1 else 0) + Trues(l[1..])
  }

  /** Which of n positions are chosen, for every choice of k of them, lowest position first. */
  function Combinations(n: nat, k: nat): seq<seq<bool>> {
    if n == 0 && k == 0 then [[]]
    else if n == 0 then []
    else if k == 0 then Prepend(false, Combinations(n - 1, k))
    else Prepend(true, Combinations(n - 1, k - 1)) + Prepend(false, Combinations(n - 1, k))
  }

  predicate IsListed(n: nat, k: nat, l: seq<bool>) { l in Combinations(n, k) }

  /** A choice of k of n takes the first position or leaves it. */
  lemma CombinationsSplit(n: nat, k: nat, l: seq<bool>)
    requires n > 0
    ensures IsListed(n, k, l) <==>
      l != [] && if l[0] then k > 0 && IsListed(n - 1, k - 1, l[1..]) else IsListed(n - 1, k, l[1..])
  {
    hide Prepend;
    PrependHolds(false, Combinations(n - 1, k), l);
    if k > 0 {
      PrependHolds(true, Combinations(n - 1, k - 1), l);
    }
  }

  lemma CombinationsOfNone(k: nat, l: seq<bool>)
    ensures IsListed(0, k, l) <==> l == [] && k == 0
  {
  }

  lemma {:induction false} ListedExactly(n: nat, k: nat, l: seq<bool>)
    ensures IsListed(n, k, l) <==> |l| == n && Trues(l) == k
    decreases n
  {
    hide IsListed;
    if n == 0 {
      CombinationsOfNone(k, l);
    } else {
      CombinationsSplit(n, k, l);
      if l != [] {
        if !l[0] {
          ListedExactly(n - 1, k, l[1..]);
        } else if k > 0 {
          ListedExactly(n - 1, k - 1, l[1..]);
        }
      }
    }
  }

  lemma CombinationsComplete(n: nat, k: nat, l: seq<bool>)
    ensures l in Combinations(n, k) <==> |l| == n && Trues(l) == k
  {
    hide Combinations, Trues;
    ListedExactly(n, k, l);
  }

  lemma {:induction false} CombinationsDistinct(n: nat, k: nat)
    ensures NoDuplicates(Combinations(n, k))
    decreases n
  {
    if n > 0 {
      CombinationsDistinct(n - 1, k);
      PrependDistinct(false, Combinations(n - 1, k));
      if k > 0 {
        CombinationsDistinct(n - 1, k - 1);
        PrependDistinct(true, Combinations(n - 1, k - 1));
        var s, t := Prepend(true, Combinations(n - 1, k - 1)), Prepend(false, Combinations(n - 1, k));
        forall x | x in s ensures x !in t {
          PrependHolds(true, Combinations(n - 1, k - 1), x);
          PrependHolds(false, Combinations(n - 1, k), x);
        }
        AppendDistinct(s, t);
      }
    }
  }

  function Factorial(n: nat): (f: nat)
    ensures f > 0
  {
    if n == 0 then 1 else n * Factorial(n - 1)
  }

  lemma {:induction false} NoChoiceOfMore(n: nat, k: nat)
    requires k > n
    ensures Combinations(n, k) == []
    decreases n
  {
    if n > 0 {
      NoChoiceOfMore(n - 1, k);
      NoChoiceOfMore(n - 1, k - 1);
    }
  }

  /** The choices that take the first position, and those that do not. */
  function TakingFirst(n: nat, k: nat): nat
    requires n > 0
  {
    if k > 0 then |Combinations(n - 1, k - 1)| else 0
  }

  lemma SizeSplits(n: nat, k: nat)
    requires n > 0
    ensures |Combinations(n, k)| == TakingFirst(n, k) + |Combinations(n - 1, k)|
  {
  }

  lemma {:induction false} TakingFirstCount(n: nat, k: nat)
    requires 0 < n && k <= n
    ensures TakingFirst(n, k) * (Factorial(k) * Factorial(n - k)) == k * Factorial(n - 1)
    decreases n, 0
  {
    hide Combinations, Factorial;
    if k > 0 {
      CombinationsCount(n - 1, k - 1);
      FactorialStep(k);
      Regroup(TakingFirst(n, k), k, Factorial(k - 1), Factorial(n - k));
    }
  }

  lemma {:induction false} TakingLaterCount(n: nat, k: nat)
    requires 0 < n && k <= n
    ensures |Combinations(n - 1, k)| * (Factorial(k) * Factorial(n - k)) == (n - k) * Factorial(n - 1)
    decreases n, 0
  {
    hide Combinations, Factorial;
    if k < n {
      CombinationsCount(n - 1, k);
      FactorialStep(n - k);
      Swap(Factorial(k), Factorial(n - k));
      Swap(Factorial(k), Factorial(n - k - 1));
      Regroup(|Combinations(n - 1, k)|, n - k, Factorial(n - k - 1), Factorial(k));
    } else {
      NoChoiceOfMore(n - 1, k);
    }
  }

  lemma FactorialStep(n: nat)
    requires n > 0
    ensures Factorial(n) == n * Factorial(n - 1)
  {
  }

  lemma Swap(a: nat, b: nat)
    ensures a * b == b * a
  {
  }

  /** The number of choices is n! / (k! (n - k)!). */
  lemma {:induction false} CombinationsCount(n: nat, k: nat)
    requires k <= n
    ensures |Combinations(n, k)| * (Factorial(k) * Factorial(n - k)) == Factorial(n)
    decreases n, 1
  {
    if n > 0 {
      hide Combinations, Factorial, TakingFirst;
      SizeSplits(n, k);
      TakingFirstCount(n, k);
      TakingLaterCount(n, k);
      FactorialStep(n);
      Distribute(TakingFirst(n, k), |Combinations(n - 1, k)|, Factorial(k) * Factorial(n - k), k, n - k,
        Factorial(n - 1));
    }
  }

  lemma Regroup(c: nat, m: nat, a: nat, b: nat)
    ensures c * ((m * a) * b) == m * (c * (a * b))
  {
    assert (m * a) * b == m * (a * b);
    assert c * (m * (a * b)) == m * (c * (a * b));
  }

  lemma Distribute(x: nat, y: nat, z: nat, a: nat, b: nat, f: nat)
    requires x * z == a * f && y * z == b * f
    ensures (x + y) * z == (a + b) * f
  {
  }

  // ---- The product of several lists ----

  function Outer<T>(xs: seq<T>, rests: seq<seq<T>>): (r: seq<seq<T>>)
    ensures |r| == |xs| * |rests|
    decreases |xs|
  {
    if xs == [] then [] else Prepend(xs[0], rests) + Outer(xs[1..], rests)
  }

  /** One from each list, the last list varying fastest. */
  function Product<T>(options: seq<seq<T>>): seq<seq<T>>
    decreases |options|
  {
    if options == [] then [[]] else Outer(options[0], Product(options[1..]))
  }

  lemma {:induction false} OuterHolds<T(!new)>(xs: seq<T>, rests: seq<seq<T>>, l: seq<T>)
    ensures l in Outer(xs, rests) <==> |l| > 0 && l[0] in xs && l[1..] in rests
    decreases |xs|
  {
    if xs != [] {
      PrependHolds(xs[0], rests, l);
      OuterHolds(xs[1..], rests, l);
      assert xs == [xs[0]] + xs[1..];
    }
  }

  lemma {:induction false} OuterDistinct<T(!new)>(xs: seq<T>, rests: seq<seq<T>>)
    requires NoDuplicates(xs) && NoDuplicates(rests)
    ensures NoDuplicates(Outer(xs, rests))
    decreases |xs|
  {
    if xs != [] {
      OuterDistinct(xs[1..], rests);
      PrependDistinct(xs[0], rests);
      forall l | l in Prepend(xs[0], rests) ensures l !in Outer(xs[1..], rests) {
        PrependHolds(xs[0], rests, l);
        OuterHolds(xs[1..], rests, l);
      }
      AppendDistinct(Prepend(xs[0], rests), Outer(xs[1..], rests));
    }
  }

  ghost predicate PicksOne<T>(options: seq<seq<T>>, l: seq<T>) {
    |l| == |options| && forall i :: 0 <= i < |l| ==> l[i] in options[i]
  }

  lemma {:induction false} ProductComplete<T(!new)>(options: seq<seq<T>>, l: seq<T>)
    ensures l in Product(options) <==> PicksOne(options, l)
    decreases |options|
  {
    if options != [] {
      OuterHolds(options[0], Product(options[1..]), l);
      if |l| > 0 {
        ProductComplete(options[1..], l[1..]);
        if PicksOne(options[1..], l[1..]) && l[0] in options[0] && |l| == |options| {
          forall i | 0 <= i < |l| ensures l[i] in options[i] {
            if i > 0 { assert l[i] == l[1..][i - 1] && options[i] == options[1..][i - 1]; }
          }
        }
        if PicksOne(options, l) {
          forall i | 0 <= i < |l| - 1 ensures l[1..][i] in options[1..][i] {
            assert l[1..][i] == l[i + 1] && options[1..][i] == options[i + 1];
          }
        }
      }
    }
  }

  lemma {:induction false} ProductDistinct<T(!new)>(options: seq<seq<T>>)
    requires forall i :: 0 <= i < |options| ==> NoDuplicates(options[i])
    ensures NoDuplicates(Product(options))
    decreases |options|
  {
    if options != [] {
      ProductDistinct(options[1..]);
      OuterDistinct(options[0], Product(options[1..]));
    }
  }
}

/** The exact permutation test of scripts/eval-comments/harness.py, over real numbers. */
module PermutationTest {
  import opened Sequences
  import opened Wrappers
  import opened Choices

  /** A graded run: its arm, its task, and the measure, when it has one. */
  datatype Row = Row(arm: string, task: string, measure: Option<real>)

  datatype Sample = Sample(isC: bool, value: real)

  datatype Task = Task(name: string, samples: seq<Sample>)

  /** The two arms that are compared. */
  datatype Arms = Arms(first: string, second: string)

  const TOLERANCE := 0.000000000001

  predicate Counts(arms: Arms, r: Row) { r.measure.Some? && (r.arm == arms.first || r.arm == arms.second) }

  function SampleOf(arms: Arms, r: Row): Sample
    requires Counts(arms, r)
  {
    Sample(r.arm == arms.second, r.measure.value)
  }

  /** The samples of one task, in the order of the rows. */
  function SamplesOf(arms: Arms, rows: seq<Row>, task: string): seq<Sample>
    decreases |rows|
  {
    if rows == [] then []
    else
      var last := rows[|rows| - 1];
      SamplesOf(arms, rows[..|rows| - 1], task)
      + if Counts(arms, last) && last.task == task then [SampleOf(arms, last)] else []
  }

  /** The row has a measure, is of one of the two arms, and belongs to the task. */
  predicate IsRowOf(arms: Arms, r: Row, task: string) {
    r.measure.Some? && (r.arm == arms.first || r.arm == arms.second) && r.task == task
  }

  /** The samples of a task are its rows with a measure and one of the two arms, in their order,
      each with its own measure, and marked when it is of the second arm. */
  lemma {:induction false} SamplesAreRows(arms: Arms, rows: seq<Row>, task: string) returns (at: seq<nat>)
    ensures |at| == |SamplesOf(arms, rows, task)|
    ensures forall i, j :: 0 <= i < j < |at| ==> at[i] < at[j]
    ensures forall k :: 0 <= k < |at| ==>
              at[k] < |rows| && IsRowOf(arms, rows[at[k]], task)
              && SamplesOf(arms, rows, task)[k] == Sample(rows[at[k]].arm == arms.second, rows[at[k]].measure.value)
    ensures forall i: nat :: i < |rows| && IsRowOf(arms, rows[i], task) ==> i in at
    decreases |rows|
  {
    if rows == [] {
      at := [];
    } else {
      var n := |rows| - 1;
      at := SamplesAreRows(arms, rows[..n], task);
      if IsRowOf(arms, rows[n], task) {
        at := at + [n];
      }
    }
  }

  /** Every task with a sample is there once, with all its samples. */
  ghost predicate IsGrouping(arms: Arms, rows: seq<Row>, tasks: seq<Task>) {
    (forall i, j :: 0 <= i < j < |tasks| ==> tasks[i].name != tasks[j].name)
    && (forall i :: 0 <= i < |tasks| ==>
          tasks[i].samples == SamplesOf(arms, rows, tasks[i].name) && tasks[i].samples != [])
    && (forall r :: r in rows && Counts(arms, r) ==> exists i :: 0 <= i < |tasks| && tasks[i].name == r.task)
  }

  lemma SamplesStep(arms: Arms, rows: seq<Row>, k: nat, task: string)
    requires k < |rows|
    ensures SamplesOf(arms, rows[..k + 1], task)
         == SamplesOf(arms, rows[..k], task)
            + if Counts(arms, rows[k]) && rows[k].task == task
              then [SampleOf(arms, rows[k])] else []
  {
    hide Counts, SampleOf;
    assert rows[..k + 1][..k] == rows[..k];
  }

  lemma GroupingSkips(arms: Arms, rows: seq<Row>, k: nat, tasks: seq<Task>)
    requires k < |rows| && IsGrouping(arms, rows[..k], tasks) && !Counts(arms, rows[k])
    ensures IsGrouping(arms, rows[..k + 1], tasks)
  {
    hide Counts, SamplesOf;
    forall i | 0 <= i < |tasks| ensures tasks[i].samples == SamplesOf(arms, rows[..k + 1], tasks[i].name) {
      SamplesStep(arms, rows, k, tasks[i].name);
    }
  }

  lemma GroupingGrows(arms: Arms, rows: seq<Row>, k: nat, tasks: seq<Task>, at: nat)
    requires k < |rows| && IsGrouping(arms, rows[..k], tasks) && Counts(arms, rows[k])
    requires at < |tasks| && tasks[at].name == rows[k].task
    ensures
      var s := SampleOf(arms, rows[k]);
      IsGrouping(arms, rows[..k + 1], tasks[at := tasks[at].(samples := tasks[at].samples + [s])])
  {
    hide Counts, SamplesOf, SampleOf;
    assert forall r :: r in rows[..k + 1] ==> r in rows[..k] || r == rows[k];
    forall i | 0 <= i < |tasks| ensures i != at ==> tasks[i].samples == SamplesOf(arms, rows[..k + 1], tasks[i].name) {
      SamplesStep(arms, rows, k, tasks[i].name);
    }
    SamplesStep(arms, rows, k, rows[k].task);
    var s := SampleOf(arms, rows[k]);
    var after := tasks[at := tasks[at].(samples := tasks[at].samples + [s])];
    assert forall i :: 0 <= i < |after| ==> after[i].name == tasks[i].name;
    forall r | r in rows[..k + 1] && Counts(arms, r) ensures exists i :: 0 <= i < |after| && after[i].name == r.task {
      if r in rows[..k] {
        var i :| 0 <= i < |tasks| && tasks[i].name == r.task;
        assert after[i].name == r.task;
      } else {
        assert after[at].name == r.task;
      }
    }
  }

  lemma GroupingAdds(arms: Arms, rows: seq<Row>, k: nat, tasks: seq<Task>)
    requires k < |rows| && IsGrouping(arms, rows[..k], tasks) && Counts(arms, rows[k])
    requires forall i :: 0 <= i < |tasks| ==> tasks[i].name != rows[k].task
    ensures IsGrouping(arms, rows[..k + 1],
              tasks + [Task(rows[k].task, [SampleOf(arms, rows[k])])])
  {
    hide Counts, SamplesOf, SampleOf;
    assert forall r :: r in rows[..k + 1] ==> r in rows[..k] || r == rows[k];
    forall i | 0 <= i < |tasks| ensures tasks[i].samples == SamplesOf(arms, rows[..k + 1], tasks[i].name) {
      SamplesStep(arms, rows, k, tasks[i].name);
    }
    NotNamedNoSamples(arms, rows[..k], tasks, rows[k].task);
    SamplesStep(arms, rows, k, rows[k].task);
    var after := tasks + [Task(rows[k].task, [SampleOf(arms, rows[k])])];
    forall r | r in rows[..k + 1] && Counts(arms, r) ensures exists i :: 0 <= i < |after| && after[i].name == r.task {
      if r in rows[..k] {
        var i :| 0 <= i < |tasks| && tasks[i].name == r.task;
        assert after[i].name == r.task;
      } else {
        assert after[|tasks|].name == r.task;
      }
    }
  }

  lemma {:induction false} NoRowsNoSamples(arms: Arms, rows: seq<Row>, task: string)
    requires forall r :: r in rows && Counts(arms, r) ==> r.task != task
    ensures SamplesOf(arms, rows, task) == []
    decreases |rows|
  {
    if rows != [] {
      NoRowsNoSamples(arms, rows[..|rows| - 1], task);
      assert rows[|rows| - 1] in rows;
    }
  }

  lemma NotNamedNoSamples(arms: Arms, rows: seq<Row>, tasks: seq<Task>, task: string)
    requires IsGrouping(arms, rows, tasks) && forall i :: 0 <= i < |tasks| ==> tasks[i].name != task
    ensures SamplesOf(arms, rows, task) == []
  {
    NoRowsNoSamples(arms, rows, task);
  }

  method GroupByTask(arms: Arms, rows: seq<Row>) returns (tasks: seq<Task>)
    ensures IsGrouping(arms, rows, tasks)
  {
    hide IsGrouping;
    tasks := [];
    NothingToGroup(arms);
    for k := 0 to |rows|
      invariant IsGrouping(arms, rows[..k], tasks)
    {
      if Counts(arms, rows[k]) {
        var at := 0;
        while at < |tasks| && tasks[at].name != rows[k].task
          invariant at <= |tasks| && forall i :: 0 <= i < at ==> tasks[i].name != rows[k].task
        {
          at := at + 1;
        }
        var s := SampleOf(arms, rows[k]);
        if at < |tasks| {
          GroupingGrows(arms, rows, k, tasks, at);
          tasks := tasks[at := tasks[at].(samples := tasks[at].samples + [s])];
        } else {
          GroupingAdds(arms, rows, k, tasks);
          tasks := tasks + [Task(rows[k].task, [s])];
        }
      } else {
        GroupingSkips(arms, rows, k, tasks);
      }
    }
    assert rows[..|rows|] == rows;
  }

  lemma NothingToGroup(arms: Arms)
    ensures IsGrouping(arms, [], [])
  {
  }

  // ---- Relabelling ----

  function Flags(g: seq<Sample>): (l: seq<bool>)
    ensures |l| == |g| && forall i :: 0 <= i < |l| ==> l[i] == g[i].isC
  {
    seq(|g|, i requires 0 <= i < |g| => g[i].isC)
  }

  /** How many samples of the group are of the second arm. */
  function CountC(g: seq<Sample>): nat { Trues(Flags(g)) }

  function Labelled(g: seq<Sample>, l: seq<bool>): (h: seq<Sample>)
    requires |l| == |g|
    ensures |h| == |g| && forall i :: 0 <= i < |h| ==> h[i] == Sample(l[i], g[i].value)
  {
    seq(|g|, i requires 0 <= i < |g| => Sample(l[i], g[i].value))
  }

  lemma ChoicesFit(g: seq<Sample>)
    ensures forall l :: l in Combinations(|g|, CountC(g)) ==> |l| == |g|
  {
    forall l | l in Combinations(|g|, CountC(g)) ensures |l| == |g| {
      CombinationsComplete(|g|, CountC(g), l);
    }
  }

  /** The group under every choice of as many samples of the second arm as it has. */
  function Labelings(g: seq<Sample>): (r: seq<seq<Sample>>)
    ensures |r| == |Combinations(|g|, CountC(g))|
    ensures forall i :: 0 <= i < |r| ==>
      |Combinations(|g|, CountC(g))[i]| == |g| && r[i] == Labelled(g, Combinations(|g|, CountC(g))[i])
  {
    ChoicesFit(g);
    var cs := Combinations(|g|, CountC(g));
    seq(|cs|, i requires 0 <= i < |cs| => assert cs[i] in cs; Labelled(g, cs[i]))
  }

  /** The same values in the same order, with as many of the second arm. */
  predicate Relabels(g: seq<Sample>, h: seq<Sample>) {
    |h| == |g| && (forall i :: 0 <= i < |g| ==> h[i].value == g[i].value) && CountC(h) == CountC(g)
  }

  lemma LabelingsComplete(g: seq<Sample>, h: seq<Sample>)
    ensures h in Labelings(g) <==> Relabels(g, h)
  {
    hide Combinations, Trues;
    var cs := Combinations(|g|, CountC(g));
    if h in Labelings(g) {
      var i :| 0 <= i < |cs| && h == Labelings(g)[i];
      assert cs[i] in cs;
      CombinationsComplete(|g|, CountC(g), cs[i]);
      assert Flags(h) == cs[i];
    }
    if Relabels(g, h) {
      CombinationsComplete(|g|, CountC(g), Flags(h));
      var i :| 0 <= i < |cs| && cs[i] == Flags(h);
      assert Labelings(g)[i] == h;
    }
  }

  lemma LabelingsDistinct(g: seq<Sample>)
    ensures NoDuplicates(Labelings(g))
  {
    var cs := Combinations(|g|, CountC(g));
    CombinationsDistinct(|g|, CountC(g));
    forall i, j | 0 <= i < j < |cs| ensures Labelings(g)[i] != Labelings(g)[j] {
      assert Flags(Labelings(g)[i]) == cs[i] && Flags(Labelings(g)[j]) == cs[j];
    }
  }

  function AllLabelings(groups: seq<seq<Sample>>): (r: seq<seq<seq<Sample>>>)
    ensures |r| == |groups| && forall i :: 0 <= i < |r| ==> r[i] == Labelings(groups[i])
  {
    seq(|groups|, i requires 0 <= i < |groups| => Labelings(groups[i]))
  }

  /** Every assignment the test runs through. */
  function Assignments(groups: seq<seq<Sample>>): seq<seq<seq<Sample>>> {
    Product(AllLabelings(groups))
  }

  ghost predicate IsRelabelling(groups: seq<seq<Sample>>, a: seq<seq<Sample>>) {
    |a| == |groups| && forall i :: 0 <= i < |a| ==> Relabels(groups[i], a[i])
  }

  lemma AssignmentsComplete(groups: seq<seq<Sample>>, a: seq<seq<Sample>>)
    ensures a in Assignments(groups) <==> IsRelabelling(groups, a)
  {
    ProductComplete(AllLabelings(groups), a);
    forall i | 0 <= i < |groups| && i < |a|
      ensures a[i] in AllLabelings(groups)[i] <==> Relabels(groups[i], a[i])
    {
      LabelingsComplete(groups[i], a[i]);
    }
  }

  lemma AssignmentsDistinct(groups: seq<seq<Sample>>)
    ensures NoDuplicates(Assignments(groups))
  {
    forall i | 0 <= i < |groups| ensures NoDuplicates(AllLabelings(groups)[i]) {
      LabelingsDistinct(groups[i]);
    }
    ProductDistinct(AllLabelings(groups));
  }

  /** The product over the groups of "n choose the number of the second arm". */
  function ChoicesInAll(groups: seq<seq<Sample>>): nat
    decreases |groups|
  {
    if groups == [] then 1 else |Combinations(|groups[0]|, CountC(groups[0]))| * ChoicesInAll(groups[1..])
  }

  lemma {:induction false} AssignmentsCount(groups: seq<seq<Sample>>)
    ensures |Assignments(groups)| == ChoicesInAll(groups)
    decreases |groups|
  {
    if groups != [] {
      AssignmentsCount(groups[1..]);
      assert AllLabelings(groups)[1..] == AllLabelings(groups[1..]);
    }
  }

  // ---- The statistic and the test ----

  /** The values of one arm, group after group. */
  function ValuesIn(g: seq<Sample>, isC: bool): seq<real>
    decreases |g|
  {
    if g == [] then [] else (if g[0].isC == isC then [g[0].value] else []) + ValuesIn(g[1..], isC)
  }

  function ValuesOf(a: seq<seq<Sample>>, isC: bool): seq<real>
    decreases |a|
  {
    if a == [] then [] else ValuesIn(a[0], isC) + ValuesOf(a[1..], isC)
  }

  function Sum(s: seq<real>): real
    decreases |s|
  {
    if s == [] then 0.0 else s[0] + Sum(s[1..])
  }

  function Mean(s: seq<real>): real
    requires s != []
  {
    Sum(s) / |s| as real
  }

  /** The absolute difference of the two means, or zero when an arm has no value. */
  function Diff(a: seq<seq<Sample>>): real {
    var first, second := ValuesOf(a, false), ValuesOf(a, true);
    if first == [] || second == [] then 0.0
    else
      var d := Mean(second) - Mean(first);
      if d >= 0.0 then d else -d
  }

  predicate Extreme(groups: seq<seq<Sample>>, a: seq<seq<Sample>>) {
    Diff(a) >= Diff(groups) - TOLERANCE
  }

  function CountExtreme(groups: seq<seq<Sample>>, s: seq<seq<seq<Sample>>>): nat
    decreases |s|
  {
    if s == [] then 0
    else CountExtreme(groups, s[..|s| - 1]) + if Extreme(groups, s[|s| - 1]) then 1 else 0
  }

  /** All relabellings of the observed groups, and those at least as far apart as observed. */
  ghost function Everything(groups: seq<seq<Sample>>): set<seq<seq<Sample>>> {
    Members(Assignments(groups))
  }

  ghost function AtLeastObserved(groups: seq<seq<Sample>>): set<seq<seq<Sample>>> {
    ExtremeMembers(groups, Assignments(groups))
  }

  lemma EverythingIsEveryRelabelling(groups: seq<seq<Sample>>, a: seq<seq<Sample>>)
    ensures a in Everything(groups) <==> IsRelabelling(groups, a)
    ensures a in AtLeastObserved(groups) <==> IsRelabelling(groups, a) && Extreme(groups, a)
    ensures Extreme(groups, a) <==> Diff(a) >= Diff(groups) - 0.000000000001
  {
    AssignmentsComplete(groups, a);
  }

  ghost function Members<T(!new)>(s: seq<T>): set<T> { set a | a in s }

  ghost function ExtremeMembers(groups: seq<seq<Sample>>, s: seq<seq<seq<Sample>>>): set<seq<seq<Sample>>> {
    set a | a in s && Extreme(groups, a)
  }

  lemma OneMoreMember<T(!new)>(init: seq<T>, last: T)
    requires last !in init
    ensures |Members(init + [last])| == |Members(init)| + 1
  {
    assert Members(init + [last]) == Members(init) + {last};
  }

  lemma OneMoreExtreme(groups: seq<seq<Sample>>, init: seq<seq<seq<Sample>>>, last: seq<seq<Sample>>)
    requires last !in init
    ensures |ExtremeMembers(groups, init + [last])|
         == |ExtremeMembers(groups, init)| + if Extreme(groups, last) then 1 else 0
  {
    hide Extreme;
    var more := if Extreme(groups, last) then {last} else {};
    assert ExtremeMembers(groups, init + [last]) == ExtremeMembers(groups, init) + more;
  }

  lemma {:induction false} CountIsSize(groups: seq<seq<Sample>>, s: seq<seq<seq<Sample>>>)
    requires NoDuplicates(s)
    ensures |Members(s)| == |s| && |ExtremeMembers(groups, s)| == CountExtreme(groups, s)
    decreases |s|
  {
    if s == [] {
      assert Members(s) == {} && ExtremeMembers(groups, s) == {};
    } else {
      hide Extreme, Members, ExtremeMembers;
      var init, last := s[..|s| - 1], s[|s| - 1];
      CountIsSize(groups, init);
      assert s == init + [last];
      OneMoreMember(init, last);
      OneMoreExtreme(groups, init, last);
    }
  }

  lemma ObservedIsOneOfThem(groups: seq<seq<Sample>>)
    ensures groups in AtLeastObserved(groups)
  {
    EverythingIsEveryRelabelling(groups, groups);
  }

  /** The share of relabellings that reach the observed difference. */
  ghost function PValue(groups: seq<seq<Sample>>): (p: real)
    requires |Everything(groups)| > 0
  {
    |AtLeastObserved(groups)| as real / |Everything(groups)| as real
  }

  lemma SmallerShare(hits: nat, total: nat)
    requires 0 < hits <= total
    ensures 1.0 / total as real <= hits as real / total as real <= 1.0
  {
    var h, t := hits as real, total as real;
    DivideBoth(1.0, h, t);
    DivideBoth(h, t, t);
  }

  lemma DivideBoth(a: real, b: real, t: real)
    requires a <= b && t > 0.0
    ensures a / t <= b / t
  {
    assert b / t - a / t == (b - a) / t;
  }

  /** The p-value exists, counts the observed labelling, and lies in [1/total, 1]; the total
      is the product of the binomial coefficients. */
  lemma PValueIsInRange(groups: seq<seq<Sample>>)
    ensures |Everything(groups)| == ChoicesInAll(groups) > 0
    ensures 1.0 / ChoicesInAll(groups) as real <= PValue(groups) <= 1.0
  {
    hide Extreme, Assignments;
    AssignmentsDistinct(groups);
    CountIsSize(groups, Assignments(groups));
    AssignmentsCount(groups);
    ObservedIsOneOfThem(groups);
    SubsetIsSmaller(AtLeastObserved(groups), Everything(groups));
    assert |AtLeastObserved(groups)| > 0;
    SmallerShare(|AtLeastObserved(groups)|, |Everything(groups)|);
  }

  lemma {:induction false} SubsetIsSmaller<T>(a: set<T>, b: set<T>)
    requires a <= b
    ensures |a| <= |b|
  {
    assert b == a + (b - a);
  }

  // ---- What the statistic does not depend on ----

  lemma {:induction false} SumSplits(s: seq<real>, t: seq<real>)
    ensures Sum(s + t) == Sum(s) + Sum(t)
    decreases |s|
  {
    if s == [] {
      assert s + t == t;
    } else {
      assert (s + t)[1..] == s[1..] + t;
      SumSplits(s[1..], t);
    }
  }

  /** The mean of equal values is that value, and the statistic is the distance of the means. */
  lemma DistanceOfConstants(a: seq<seq<Sample>>, x: real, y: real)
    requires AllAre(ValuesOf(a, false), x) && AllAre(ValuesOf(a, true), y)
    requires ValuesOf(a, false) != [] && ValuesOf(a, true) != []
    ensures Diff(a) == if x < y then y - x else x - y
  {
    SumOfConstants(ValuesOf(a, false), x);
    SumOfConstants(ValuesOf(a, true), y);
  }

  predicate AllAre(s: seq<real>, x: real) {
    forall k :: 0 <= k < |s| ==> s[k] == x
  }

  lemma {:induction false} SumOfConstants(s: seq<real>, x: real)
    requires AllAre(s, x)
    ensures Sum(s) == |s| as real * x
    ensures s != [] ==> Mean(s) == x
    decreases |s|
  {
    if s != [] {
      SumOfConstants(s[1..], x);
      assert |s| as real * x == (|s| - 1) as real * x + x;
    }
  }

  /** The groups with the two arms exchanged. */
  function Swapped(g: seq<Sample>): (h: seq<Sample>)
    ensures |h| == |g| && forall i :: 0 <= i < |h| ==> h[i] == Sample(!g[i].isC, g[i].value)
  {
    seq(|g|, i requires 0 <= i < |g| => Sample(!g[i].isC, g[i].value))
  }

  function AllSwapped(a: seq<seq<Sample>>): (b: seq<seq<Sample>>)
    ensures |b| == |a| && forall i :: 0 <= i < |b| ==> b[i] == Swapped(a[i])
  {
    seq(|a|, i requires 0 <= i < |a| => Swapped(a[i]))
  }

  lemma SwapsBack(a: seq<seq<Sample>>)
    ensures AllSwapped(AllSwapped(a)) == a
  {
    forall i | 0 <= i < |a| ensures AllSwapped(AllSwapped(a))[i] == a[i] {
      assert Swapped(Swapped(a[i])) == a[i];
    }
  }

  lemma {:induction false} SwappedCount(g: seq<Sample>)
    ensures CountC(Swapped(g)) + CountC(g) == |g|
    decreases |g|
  {
    if g != [] {
      SwappedCount(g[1..]);
      assert Swapped(g)[1..] == Swapped(g[1..]);
      assert Flags(Swapped(g))[1..] == Flags(Swapped(g[1..])) && Flags(g)[1..] == Flags(g[1..]);
    }
  }

  lemma {:induction false} SwappedValuesIn(g: seq<Sample>, isC: bool)
    ensures ValuesIn(Swapped(g), isC) == ValuesIn(g, !isC)
    decreases |g|
  {
    if g != [] {
      assert Swapped(g)[1..] == Swapped(g[1..]);
      SwappedValuesIn(g[1..], isC);
    }
  }

  lemma {:induction false} SwappedValues(a: seq<seq<Sample>>, isC: bool)
    ensures ValuesOf(AllSwapped(a), isC) == ValuesOf(a, !isC)
    decreases |a|
  {
    if a != [] {
      assert AllSwapped(a)[1..] == AllSwapped(a[1..]);
      SwappedValuesIn(a[0], isC);
      SwappedValues(a[1..], isC);
    }
  }

  lemma SwappedIsAsFarApart(groups: seq<seq<Sample>>, a: seq<seq<Sample>>)
    ensures Diff(AllSwapped(a)) == Diff(a)
    ensures Extreme(AllSwapped(groups), AllSwapped(a)) <==> Extreme(groups, a)
  {
    SwappedValues(a, false);
    SwappedValues(a, true);
    SwappedValues(groups, false);
    SwappedValues(groups, true);
    hide Mean;
  }

  lemma SwappedRelabels(groups: seq<seq<Sample>>, a: seq<seq<Sample>>)
    requires IsRelabelling(groups, a)
    ensures IsRelabelling(AllSwapped(groups), AllSwapped(a))
  {
    forall i | 0 <= i < |groups| ensures Relabels(AllSwapped(groups)[i], AllSwapped(a)[i]) {
      SwappedCount(groups[i]);
      SwappedCount(a[i]);
    }
  }

  lemma {:induction false} ImageIsAsLarge(s: set<seq<seq<Sample>>>, t: set<seq<seq<Sample>>>)
    requires forall a :: a in s ==> AllSwapped(a) in t
    requires forall b :: b in t ==> AllSwapped(b) in s
    ensures |s| == |t|
    decreases |s|
  {
    if s == {} {
      if b :| b in t {
        assert AllSwapped(b) in s;
      }
    } else {
      var a :| a in s;
      var b := AllSwapped(a);
      SwapsBack(a);
      forall x | x in s - {a} ensures AllSwapped(x) in t - {b} {
        SwapsBack(x);
      }
      forall y | y in t - {b} ensures AllSwapped(y) in s - {a} {
        SwapsBack(y);
      }
      ImageIsAsLarge(s - {a}, t - {b});
    }
  }

  /** Exchanging the arms changes neither what counts as extreme nor the p-value. */
  lemma ArmsMayBeExchanged(groups: seq<seq<Sample>>)
    ensures |Everything(groups)| > 0 && |Everything(AllSwapped(groups))| > 0
    ensures PValue(AllSwapped(groups)) == PValue(groups)
  {
    var other := AllSwapped(groups);
    SwapsBack(groups);
    PValueIsInRange(groups);
    PValueIsInRange(other);
    forall a ensures a in Everything(groups) ==> AllSwapped(a) in Everything(other)
             ensures a in Everything(other) ==> AllSwapped(a) in Everything(groups)
             ensures a in AtLeastObserved(groups) ==> AllSwapped(a) in AtLeastObserved(other)
             ensures a in AtLeastObserved(other) ==> AllSwapped(a) in AtLeastObserved(groups) {
      hide Everything, AtLeastObserved, Extreme, AllSwapped, IsRelabelling;
      EverythingIsEveryRelabelling(groups, a);
      EverythingIsEveryRelabelling(other, a);
      EverythingIsEveryRelabelling(other, AllSwapped(a));
      EverythingIsEveryRelabelling(groups, AllSwapped(a));
      SwappedIsAsFarApart(groups, a);
      SwappedIsAsFarApart(other, a);
      if IsRelabelling(groups, a) {
        SwappedRelabels(groups, a);
      }
      if IsRelabelling(other, a) {
        SwappedRelabels(other, a);
      }
    }
    hide Everything, AtLeastObserved, AllSwapped;
    ImageIsAsLarge(Everything(groups), Everything(other));
    ImageIsAsLarge(AtLeastObserved(groups), AtLeastObserved(other));
  }

  function SamplesOfAll(tasks: seq<Task>): (groups: seq<seq<Sample>>)
    ensures |groups| == |tasks| && forall i :: 0 <= i < |groups| ==> groups[i] == tasks[i].samples
  {
    seq(|tasks|, i requires 0 <= i < |tasks| => tasks[i].samples)
  }

  /** permutation_p: runs through all assignments, and counts. */
  method PermutationP(arms: Arms, rows: seq<Row>) returns (p: Option<real>, tasks: seq<Task>)
    ensures IsGrouping(arms, rows, tasks)
    ensures var groups := SamplesOfAll(tasks);
      |Everything(groups)| > 0 && p == Some(PValue(groups))
  {
    hide Extreme, Assignments, IsGrouping;
    tasks := GroupByTask(arms, rows);
    var groups := SamplesOfAll(tasks);
    var combos := Assignments(groups);
    var total, hits := 0, 0;
    while total < |combos|
      invariant total <= |combos| && hits == CountExtreme(groups, combos[..total])
    {
      assert combos[..total + 1][..total] == combos[..total];
      if Extreme(groups, combos[total]) { hits := hits + 1; }
      total := total + 1;
    }
    assert combos[..total] == combos;
    AssignmentsDistinct(groups);
    CountIsSize(groups, combos);
    PValueIsInRange(groups);
    p := if total > 0 then Some(hits as real / total as real) else None;
  }

  /** When no task mixes the arms there is nothing to shuffle, and the test says 1. */
  lemma NothingToShuffle(groups: seq<seq<Sample>>)
    requires forall i :: 0 <= i < |groups| ==> CountC(groups[i]) == 0 || CountC(groups[i]) == |groups[i]|
    ensures |Everything(groups)| > 0 && PValue(groups) == 1.0
  {
    OnlyOneChoice(groups);
    PValueIsInRange(groups);
  }

  lemma {:induction false} OnlyOneChoice(groups: seq<seq<Sample>>)
    requires forall i :: 0 <= i < |groups| ==> CountC(groups[i]) == 0 || CountC(groups[i]) == |groups[i]|
    ensures ChoicesInAll(groups) == 1
    decreases |groups|
  {
    if groups != [] {
      OnlyOneChoice(groups[1..]);
      var n, k := |groups[0]|, CountC(groups[0]);
      CombinationsCount(n, k);
      assert Factorial(0) == 1;
      OneTimes(|Combinations(n, k)|, Factorial(n));
    }
  }

  lemma OneTimes(c: nat, f: nat)
    requires f > 0 && c * f == f
    ensures c == 1
  {
    assert (c - 1) * f == 0;
  }
}
