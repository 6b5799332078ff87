/** When the service worker of crates/lucidos-app/public/sw.js answers from a cache, in any
    interleaving of any number of workers' handlers. */
module CacheUse {
  import opened Wrappers
  import opened WorkerRoutes
  import opened WholeBody
  import opened CacheSteps
  import opened CacheSafety

  /** A history: each state follows from the one before by an enabled action. */
  ghost predicate IsHistory(origin: string, workers: set<Worker>, states: seq<State>, run: seq<Action>) {
    && |states| == |run| + 1
    && forall k :: 0 <= k < |run| ==> Enabled(workers, states[k], run[k])
                                      && states[k + 1] == Apply(origin, workers, states[k], run[k])
  }

  /** A history is a run, seen state by state. */
  lemma {:induction false} HistoryIsRun(origin: string, workers: set<Worker>, states: seq<State>, run: seq<Action>)
    requires IsHistory(origin, workers, states, run)
    ensures CanRun(origin, workers, states[0], run) && After(origin, workers, states[0], run) == states[|run|]
    decreases |run|
  {
    hide Enabled, Apply;
    if run != [] {
      var tail := states[1..];
      assert forall k :: 0 <= k < |run| - 1 ==> run[1..][k] == run[k + 1] && tail[k] == states[k + 1];
      HistoryIsRun(origin, workers, tail, run[1..]);
    }
  }

  lemma HistoryUpTo(origin: string, workers: set<Worker>, states: seq<State>, run: seq<Action>, n: nat)
    requires IsHistory(origin, workers, states, run) && n < |states|
    ensures IsHistory(origin, workers, states[..n + 1], run[..n])
  {
  }

  lemma InvAt(origin: string, workers: set<Worker>, states: seq<State>, run: seq<Action>, n: nat)
    requires Apart(origin, workers) && IsHistory(origin, workers, states, run) && Initial(states[0]) && n < |states|
    ensures CacheSafety.Inv(origin, workers, states[n])
  {
    hide CacheSafety.Inv, Apart, Initial, IsHistory, CanRun, After;
    FirstAndLast(origin, workers, states, run, n);
    HistoryUpTo(origin, workers, states, run, n);
    HistoryIsRun(origin, workers, states[..n + 1], run[..n]);
    InitialIsOk(origin, workers, states[0]);
    RunsKeepInv(origin, workers, states[0], run[..n]);
  }

  lemma FirstAndLast(origin: string, workers: set<Worker>, states: seq<State>, run: seq<Action>, n: nat)
    requires IsHistory(origin, workers, states, run) && n < |states|
    ensures n <= |run| && |run[..n]| == n && states[..n + 1][0] == states[0] && states[..n + 1][|run[..n]|] == states[n]
  {
  }

  // ---- What stays ----

  /** The cache that was opened as `id` holds an answer for the key. */
  predicate Holding(s: State, id: nat, key: string) {
    id < |s.caches| && key in s.caches[id].entries
  }

  /** No entry of any cache is ever taken out, though it may be replaced. */
  lemma StepKeepsEntries(origin: string, workers: set<Worker>, s: State, a: Action, id: nat, key: string)
    requires Enabled(workers, s, a) && Holding(s, id, key)
    ensures Holding(Apply(origin, workers, s, a), id, key)
  {
    hide Retry, Miss, IsCacheable, Stored, ShellPlan, GoodShell, ShellKey, RouteOf, IsBuilt, EntriesOf;
  }

  lemma {:induction false} EntriesStay(origin: string, workers: set<Worker>, states: seq<State>, run: seq<Action>,
                                       id: nat, key: string, i: nat, j: nat)
    requires IsHistory(origin, workers, states, run) && i <= j < |states| && Holding(states[i], id, key)
    ensures Holding(states[j], id, key)
    decreases j
  {
    hide Enabled, Apply, Holding;
    if i < j {
      EntriesStay(origin, workers, states, run, id, key, i, j - 1);
      StepKeepsEntries(origin, workers, states[j - 1], run[j - 1], id, key);
    }
  }

  /** No handler is dropped: a task waits until it runs on. */
  lemma {:induction false} TasksStay(origin: string, workers: set<Worker>, states: seq<State>, run: seq<Action>, t: Task,
                                     i: nat, j: nat)
    requires IsHistory(origin, workers, states, run) && i <= j < |states| && t in states[i].tasks
    requires forall k :: i <= k < j && run[k].Step? ==> run[k].task != t
    ensures t in states[j].tasks
    decreases j
  {
    hide Enabled, Apply;
    if i < j {
      TasksStay(origin, workers, states, run, t, i, j - 1);
      OthersStay(origin, workers, states[j - 1], run[j - 1], t);
    }
  }

  // ---- A navigation ----

  /** The network's answer to a request that is tried twice. */
  predicate NoAnswer(tries: seq<Attempt>) {
    |tries| >= 2 && tries[0].Rejected? && tries[1].Rejected?
  }

  predicate IsAnswer(tries: seq<Attempt>, r: Response) {
    |tries| >= 2 && (tries[0] == Answered(r) || (tries[0].Rejected? && tries[1] == Answered(r)))
  }

  /** Which answers a navigation is not shown: neither a pairing screen, nor a success, nor a
      redirect that can be followed, nor a 503 or a boot splash. */
  predicate CallsForFallback(r: Response) {
    && r.pairing == ""
    && !(200 <= r.status <= 299 && !r.redirected)
    && !(r.redirected && r.url != "")
    && r.status != 503 && r.bootSplash == ""
  }

  /** An answer that becomes the worker's shell: an unredirected success, no pairing screen. */
  predicate IsNewShell(r: Response) {
    r.pairing == "" && 200 <= r.status <= 299 && !r.redirected
  }

  /** A redirect is handed on as one; any other answer that is shown is shown as it came. */
  function ShownAs(r: Response): Answer {
    if r.pairing == "" && r.redirected && r.url != "" then RedirectTo(r.url) else Reply(r)
  }

  /** What a page is given now. */
  predicate Gives(s: State, s': State, key: string, fromCache: bool, answer: Answer) {
    |s'.served| == |s.served| + 1 && s'.served[..|s.served|] == s.served
    && var v := s'.served[|s.served|]; v.key == key && v.fromCache == fromCache && v.answer == answer
  }

  /** The handler of a navigation asks the network. It shows the answer, and starts to store it
      when it is a new shell; or it shows nothing yet and falls back. */
  lemma NavigationAsks(origin: string, workers: set<Worker>, s: State, w: Worker, id: nat, i: Input)
    requires Enabled(workers, s, Step(Asking(w, id), i))
    ensures
      var s' := Apply(origin, workers, s, Step(Asking(w, id), i));
      var key := ShellKey(origin, w);
      && s'.caches == s.caches
      && (NoAnswer(i.tries) ==> s'.served == s.served && FallingBack(w, id, Failure) in s'.tasks)
      && forall r :: IsAnswer(i.tries, r) ==>
           (if CallsForFallback(r) then s'.served == s.served && FallingBack(w, id, Reply(r)) in s'.tasks
            else Gives(s, s', key, false, ShownAs(r)))
           && (!CallsForFallback(r) ==>
                 s'.tasks == s.tasks - multiset{Asking(w, id)}
                             + if IsNewShell(r) then multiset{Storing(id, key, r)} else multiset{})
  {
    hide Apply, ShellKey, CallsForFallback, IsNewShell, ShownAs, Gives;
    AskedInVain(origin, workers, s, w, id, i);
    forall r | IsAnswer(i.tries, r)
      ensures
        var s' := Apply(origin, workers, s, Step(Asking(w, id), i));
        && (if CallsForFallback(r) then s'.served == s.served && FallingBack(w, id, Reply(r)) in s'.tasks
            else Gives(s, s', ShellKey(origin, w), false, ShownAs(r)))
        && (!CallsForFallback(r) ==>
              s'.tasks == s.tasks - multiset{Asking(w, id)}
                          + if IsNewShell(r) then multiset{Storing(id, ShellKey(origin, w), r)} else multiset{})
    {
      Asked(origin, workers, s, w, id, r, i);
    }
  }

  lemma AskedInVain(origin: string, workers: set<Worker>, s: State, w: Worker, id: nat, i: Input)
    requires Enabled(workers, s, Step(Asking(w, id), i))
    ensures
      var s' := Apply(origin, workers, s, Step(Asking(w, id), i));
      && s'.caches == s.caches
      && (NoAnswer(i.tries) ==> s'.served == s.served && FallingBack(w, id, Failure) in s'.tasks)
  {
    hide ShellKey, ShellPlan;
  }

  lemma Asked(origin: string, workers: set<Worker>, s: State, w: Worker, id: nat, r: Response, i: Input)
    requires Enabled(workers, s, Step(Asking(w, id), i)) && IsAnswer(i.tries, r)
    ensures
      var s' := Apply(origin, workers, s, Step(Asking(w, id), i));
      var key := ShellKey(origin, w);
      && (if CallsForFallback(r) then s'.served == s.served && FallingBack(w, id, Reply(r)) in s'.tasks
          else Gives(s, s', key, false, ShownAs(r)))
      && (!CallsForFallback(r) ==>
            s'.tasks == s.tasks - multiset{Asking(w, id)}
                        + if IsNewShell(r) then multiset{Storing(id, key, r)} else multiset{})
  {
    PlanIs(r);
    hide ShellKey, ShellPlan, CallsForFallback, IsNewShell, ShownAs;
    assert Retry(i.tries) == Reply(r);
  }

  /** What the handler makes of an answer. */
  lemma PlanIs(r: Response)
    ensures ShellPlan(r) == FallBack <==> CallsForFallback(r)
    ensures ShellPlan(r) == StoreIt <==> IsNewShell(r)
    ensures ShownAs(r) == if ShellPlan(r) == SendOn then RedirectTo(r.url) else Reply(r)
  {
  }

  /** Falling back, it shows what its cache holds under the shell key, and else what it had. */
  lemma NavigationFallsBack(origin: string, workers: set<Worker>, s: State, w: Worker, id: nat, answer: Answer, i: Input)
    requires Enabled(workers, s, Step(FallingBack(w, id, answer), i))
    ensures
      var s' := Apply(origin, workers, s, Step(FallingBack(w, id, answer), i));
      var key := ShellKey(origin, w);
      if Holding(s, id, key) then Gives(s, s', key, true, Reply(s.caches[id].entries[key]))
      else Gives(s, s', key, false, answer)
  {
    hide ShellKey;
  }

  /** At step `a` a navigation's handler opened its cache, as `id`, and at step `b` the network
      left it without an answer that can be shown. */
  ghost predicate LeftAlone(states: seq<State>, run: seq<Action>, w: Worker, id: nat, answer: Answer, a: nat, b: nat) {
    && a < b < |run| < |states|
    && run[a].Step? && run[a].task == Navigating(w) && id == IdOf(states[a], ShellCache(w.build))
    && run[b].Step? && run[b].task == Asking(w, id)
    && if answer.Failure? then NoAnswer(run[b].input.tries)
       else answer.Reply? && IsAnswer(run[b].input.tries, answer.response) && CallsForFallback(answer.response)
  }

  /** A navigation that the network leaves alone always goes on to fall back; and when it does,
      at step `c`, it is given a shell from the cache it opened, if that held one then, as it
      does if it held one when it was opened. */
  lemma NavigationGetsTheShell(origin: string, workers: set<Worker>, states: seq<State>, run: seq<Action>, w: Worker,
                               id: nat, answer: Answer, a: nat, b: nat, c: nat)
    requires Apart(origin, workers) && IsHistory(origin, workers, states, run) && Initial(states[0])
    requires LeftAlone(states, run, w, id, answer, a, b) && b < c < |run|
    requires forall k :: b < k < c && run[k].Step? ==> run[k].task != FallingBack(w, id, answer)
    ensures FallingBack(w, id, answer) in states[c].tasks
    ensures
      var key := ShellKey(origin, w);
      && (Holding(states[a], id, key) ==> Holding(states[c], id, key))
      && (run[c].Step? && run[c].task == FallingBack(w, id, answer) ==>
            if Holding(states[c], id, key) then
              Gives(states[c], states[c + 1], key, true, Reply(states[c].caches[id].entries[key]))
              && IsNewShell(states[c].caches[id].entries[key])
            else Gives(states[c], states[c + 1], key, false, answer))
  {
    var t, key := FallingBack(w, id, answer), ShellKey(origin, w);
    hide CacheSafety.Inv, Apart, Initial, Apply, Holding, ShellKey, Gives, CallsForFallback, IsNewShell, GoodShell;
    FallsBackNext(origin, workers, states, run, w, id, answer, a, b);
    TasksStay(origin, workers, states, run, t, b + 1, c);
    if Holding(states[a], id, key) {
      EntriesStay(origin, workers, states, run, id, key, a, c);
    }
    InvAt(origin, workers, states, run, c);
    if run[c].Step? && run[c].task == t {
      NavigationFallsBack(origin, workers, states[c], w, id, answer, run[c].input);
      if Holding(states[c], id, key) {
        HeldShellIsShell(origin, workers, states[c], w, id, answer);
      }
    }
  }

  lemma FallsBackNext(origin: string, workers: set<Worker>, states: seq<State>, run: seq<Action>, w: Worker, id: nat,
                      answer: Answer, a: nat, b: nat)
    requires IsHistory(origin, workers, states, run) && LeftAlone(states, run, w, id, answer, a, b)
    ensures FallingBack(w, id, answer) in states[b + 1].tasks && states[b + 1].served == states[b].served
  {
    hide Apply, ShellKey, Gives, CallsForFallback, IsNewShell, ShownAs;
    assert run[b] == Step(Asking(w, id), run[b].input);
    assert Enabled(workers, states[b], run[b]);
    NavigationAsks(origin, workers, states[b], w, id, run[b].input);
  }

  /** What a falling-back handler finds under its key is a shell. */
  lemma HeldShellIsShell(origin: string, workers: set<Worker>, s: State, w: Worker, id: nat, answer: Answer)
    requires Apart(origin, workers) && CacheSafety.Inv(origin, workers, s) && FallingBack(w, id, answer) in s.tasks
    requires Holding(s, id, ShellKey(origin, w))
    ensures IsNewShell(s.caches[id].entries[ShellKey(origin, w)])
  {
    var key := ShellKey(origin, w);
    hide CacheSafety.Inv, Apart, EntryOk, ShellKey;
    RunningIsOk(origin, workers, s, FallingBack(w, id, answer));
    EntryIsOk(origin, workers, s, id, key);
    ShellKeyHoldsShell(origin, workers, s.fetched, w.build, w, s.caches[id].entries[key]);
  }

  // ---- What is stored is found ----

  /** A write that succeeds leaves the answer under its key, its body read to the end. */
  lemma StoringStores(origin: string, workers: set<Worker>, s: State, id: nat, key: string, r: Response, i: Input)
    requires Enabled(workers, s, Step(Storing(id, key, r), i)) && id < |s.caches|
    ensures
      var s' := Apply(origin, workers, s, Step(Storing(id, key, r), i));
      && (i.writes && r.status != 206 && (r.body.Stream? ==> Drain(r.body.feed).Some?) ==>
            Holding(s', id, key)
            && s'.caches[id].entries[key]
               == if r.body.Stream? then r.(body := Memory(Drain(r.body.feed).value)) else r)
      && (!(i.writes && r.status != 206 && (r.body.Stream? ==> Drain(r.body.feed).Some?)) ==> s'.caches == s.caches)
  {
  }

  /** The answer can be stored: it is no partial one, and its body comes to its end. */
  predicate CanBeStored(r: Response) {
    r.status != 206 && (r.body.Stream? ==> Drain(r.body.feed).Some?)
  }

  /** Online, then offline: a navigation's answer was a new shell, and was written to the cache
      that its handler had opened. Whatever came since, a later navigation of the same worker
      that opens the same cache, and that the network leaves alone, is given a shell. */
  lemma OnlineThenOffline(origin: string, workers: set<Worker>, states: seq<State>, run: seq<Action>, w: Worker, id: nat,
                          r: Response, d: nat, answer: Answer, a: nat, b: nat, c: nat)
    requires Apart(origin, workers) && IsHistory(origin, workers, states, run) && Initial(states[0])
    requires LeftAlone(states, run, w, id, answer, a, b) && b < c < |run| && d < a
    requires run[d].Step? && run[d].task == Storing(id, ShellKey(origin, w), r) && run[d].input.writes
    requires CanBeStored(r) && id < |states[d].caches|
    requires run[c].Step? && run[c].task == FallingBack(w, id, answer)
    requires forall k :: b < k < c && run[k].Step? ==> run[k].task != FallingBack(w, id, answer)
    ensures
      exists shell :: IsNewShell(shell) && Gives(states[c], states[c + 1], ShellKey(origin, w), true, Reply(shell))
  {
    var key := ShellKey(origin, w);
    hide CacheSafety.Inv, Apart, Initial, Apply, ShellKey, Gives, CallsForFallback, IsNewShell, GoodShell, IdOf;
    assert run[d] == Step(Storing(id, key, r), run[d].input);
    assert Enabled(workers, states[d], run[d]);
    StoringStores(origin, workers, states[d], id, key, r, run[d].input);
    EntriesStay(origin, workers, states, run, id, key, d + 1, a);
    NavigationGetsTheShell(origin, workers, states, run, w, id, answer, a, b, c);
    assert IsNewShell(states[c].caches[id].entries[key]);
  }

  /** A worker that installs in a built deployment asks for the shell once, and warms its cache
      with it: a good answer goes on to be stored under the shell key. */
  lemma InstallWarmsTheCache(origin: string, workers: set<Worker>, s: State, w: Worker, r: Response, i: Input, j: Input)
    requires Enabled(workers, s, Step(Installing(w), i)) && i.tries[0] == Answered(r) && IsNewShell(r)
    requires |j.tries| == WHOLE_BODY_ATTEMPTS
    ensures
      var s1 := Apply(origin, workers, s, Step(Installing(w), i));
      && Precaching(w, r) in s1.tasks && Enabled(workers, s1, Step(Precaching(w, r), j))
      && var s2 := Apply(origin, workers, s1, Step(Precaching(w, r), j));
         var id := IdOf(s1, ShellCache(w.build));
      && Storing(id, ShellKey(origin, w), r) in s2.tasks
      && ShellCache(w.build) in s2.named && s2.named[ShellCache(w.build)] == id
  {
    hide ShellKey;
    var s1 := Apply(origin, workers, s, Step(Installing(w), i));
    assert Precaching(w, r) in s1.tasks;
    PrecachingStores(origin, workers, s1, w, r, j);
  }

  lemma PrecachingStores(origin: string, workers: set<Worker>, s: State, w: Worker, r: Response, j: Input)
    requires Enabled(workers, s, Step(Precaching(w, r), j))
    ensures
      var s' := Apply(origin, workers, s, Step(Precaching(w, r), j));
      var id := IdOf(s, ShellCache(w.build));
      && Storing(id, ShellKey(origin, w), r) in s'.tasks
      && ShellCache(w.build) in s'.named && s'.named[ShellCache(w.build)] == id
  {
    hide ShellKey;
  }

  // ---- Bundles and blobs ----

  /** A lookup that finds its URL in the cache it opened answers from there, and asks the
      network nothing. Any other goes on to ask it. */
  lemma LookupIsCacheFirst(origin: string, workers: set<Worker>, s: State, w: Worker, url: string, name: Name, id: nat,
                           i: Input)
    requires Enabled(workers, s, Step(Opened(w, url, name, id), i))
    ensures
      var t := Opened(w, url, name, id);
      var s' := Apply(origin, workers, s, Step(t, i));
      && s'.fetched == s.fetched && s'.caches == s.caches
      && if Holding(s, id, url) then
           Gives(s, s', url, true, Reply(s.caches[id].entries[url])) && s'.tasks == s.tasks - multiset{t}
         else s'.served == s.served && s'.tasks == s.tasks - multiset{t} + multiset{Missed(w, url, name, id)}
  {
  }

  /** What is found when the cache is opened is still found when it is looked up. */
  lemma CachedIsServed(origin: string, workers: set<Worker>, states: seq<State>, run: seq<Action>, w: Worker, url: string,
                       name: Name, id: nat, a: nat, b: nat)
    requires IsHistory(origin, workers, states, run) && a < b < |run|
    requires run[a].Step? && run[a].task == Looking(w, url, name) && id == IdOf(states[a], name)
    requires Holding(states[a], id, url)
    requires run[b].Step? && run[b].task == Opened(w, url, name, id)
    ensures Holding(states[b], id, url) && states[b + 1].fetched == states[b].fetched
    ensures Gives(states[b], states[b + 1], url, true, Reply(states[b].caches[id].entries[url]))
    ensures states[b + 1].tasks == states[b].tasks - multiset{Opened(w, url, name, id)}
  {
    hide Apply, Gives, IdOf;
    EntriesStay(origin, workers, states, run, id, url, a, b);
    assert run[b] == Step(Opened(w, url, name, id), run[b].input);
    assert Enabled(workers, states[b], run[b]);
    LookupIsCacheFirst(origin, workers, states[b], w, url, name, id, run[b].input);
  }

  /** The answer's content type names an HTML document. */
  ghost predicate IsHtmlAnswer(r: Response) {
    r.contentType.Some? && exists k: nat :: k <= |r.contentType.value| && "text/html" <= r.contentType.value[k..]
  }

  lemma HtmlIsExact(r: Response)
    ensures IsHtml(r) <==> IsHtmlAnswer(r)
  {
  }

  /** What a lookup that missed gives the page, and whether it starts to store it. */
  predicate Brings(s: State, s': State, t: Task, answer: Answer, stores: bool)
    requires t.Missed? && (stores ==> answer.Reply?)
  {
    && Gives(s, s', t.url, false, answer)
    && s'.tasks == s.tasks - multiset{t} + if stores then multiset{Storing(t.id, t.url, answer.response)} else multiset{}
  }

  /** After a miss the page is given the network's answer: for a bundle the first that came
      whole in three tries, for a blob the first in two. It is stored just when it is a success,
      and for a bundle no HTML. */
  lemma MissAsksTheNetwork(origin: string, workers: set<Worker>, s: State, w: Worker, url: string, name: Name, id: nat,
                           i: Input)
    requires Enabled(workers, s, Step(Missed(w, url, name, id), i))
    ensures
      var t := Missed(w, url, name, id);
      var s' := Apply(origin, workers, s, Step(t, i));
      && s'.fetched == s.fetched + [Fetch(name, url, i.tries)] && s'.caches == s.caches
      && (name.ShellCache? ==>
            && (forall r, k: nat :: IsFirstWhole(i.tries, r, k) ==>
                  Brings(s, s', t, Reply(r), 200 <= r.status <= 299 && !IsHtmlAnswer(r)))
            && ((forall k :: 0 <= k < 3 ==> Whole(i.tries[k]) == None) ==> Brings(s, s', t, Reply(NETWORK_ERROR), false)))
      && (!name.ShellCache? ==>
            && (NoAnswer(i.tries) ==> Brings(s, s', t, Failure, false))
            && (forall r :: IsAnswer(i.tries, r) ==> Brings(s, s', t, Reply(r), 200 <= r.status <= 299)))
  {
    hide IsHtml, Whole, IsHtmlAnswer, IsCacheable, Miss, FirstWhole, Retry;
    if name.ShellCache? {
      BundleMissed(origin, workers, s, w, url, name, id, i);
    } else {
      BlobMissed(origin, workers, s, w, url, name, id, i);
    }
  }

  lemma MissBrings(origin: string, workers: set<Worker>, s: State, t: Task, i: Input)
    requires t.Missed? && Enabled(workers, s, Step(t, i))
    ensures Brings(s, Apply(origin, workers, s, Step(t, i)), t, Miss(t.name, i.tries),
                   IsCacheable(t.name, Miss(t.name, i.tries)))
  {
    hide Miss, GoodBundle, Ok;
  }

  lemma BundleMissed(origin: string, workers: set<Worker>, s: State, w: Worker, url: string, name: Name, id: nat, i: Input)
    requires Enabled(workers, s, Step(Missed(w, url, name, id), i)) && name.ShellCache?
    ensures
      var t := Missed(w, url, name, id);
      var s' := Apply(origin, workers, s, Step(t, i));
      && (forall r, k: nat :: IsFirstWhole(i.tries, r, k) ==>
            Brings(s, s', t, Reply(r), 200 <= r.status <= 299 && !IsHtmlAnswer(r)))
      && ((forall k :: 0 <= k < 3 ==> Whole(i.tries[k]) == None) ==> Brings(s, s', t, Reply(NETWORK_ERROR), false))
  {
    FirstWholeIsFirst(i.tries);
    MissBrings(origin, workers, s, Missed(w, url, name, id), i);
    forall r { HtmlIsExact(r); }
    hide IsHtml, Whole, IsHtmlAnswer, FirstWhole, Apply, Brings;
  }

  lemma BlobMissed(origin: string, workers: set<Worker>, s: State, w: Worker, url: string, name: Name, id: nat, i: Input)
    requires Enabled(workers, s, Step(Missed(w, url, name, id), i)) && !name.ShellCache?
    ensures
      var t := Missed(w, url, name, id);
      var s' := Apply(origin, workers, s, Step(t, i));
      && (NoAnswer(i.tries) ==> Brings(s, s', t, Failure, false))
      && (forall r :: IsAnswer(i.tries, r) ==> Brings(s, s', t, Reply(r), 200 <= r.status <= 299))
  {
    MissBrings(origin, workers, s, Missed(w, url, name, id), i);
    hide Apply, Brings, IsHtml;
  }

  /** Every request that a cache serves starts a handler: for a blob or a bundle a lookup of its
      URL, and for a built worker's shell a navigation. No other request does. */
  lemma RequestsStartHandlers(origin: string, workers: set<Worker>, s: State, w: Worker, r: Request, rest: string)
    requires w in workers && IsScope(w.path) && r.url == origin + w.path + rest
    ensures
      var s' := Apply(origin, workers, s, Ask(w, r));
      var below := BeforeQuery(rest);
      && s'.caches == s.caches && s'.served == s.served && s'.fetched == s.fetched && s'.named == s.named
      && s'.tasks == s.tasks + match RouteBelow(w, r, below)
                               case Blob => multiset{Looking(w, r.url, BlobCache)}
                               case Bundle => multiset{Looking(w, r.url, ShellCache(w.build))}
                               case Shell => multiset{Navigating(w)}
                               case _ => multiset{}
  {
    RouteIsExact(origin, w, r, rest);
    hide RouteOf, RouteBelow, BeforeQuery;
  }

  /** A handler that opens its cache creates it when no cache has its name, and goes on with it. */
  lemma HandlersOpenTheirCache(origin: string, workers: set<Worker>, s: State, t: Task, i: Input)
    requires Enabled(workers, s, Step(t, i)) && (t.Looking? || t.Navigating?)
    ensures
      var name := if t.Looking? then t.name else ShellCache(t.w.build);
      var s' := Apply(origin, workers, s, Step(t, i));
      && name in s'.named && (name in s.named ==> s'.named == s.named && s'.caches == s.caches)
      && (name !in s.named ==> s'.caches == s.caches + [Cache(name, map[])] && s'.named[name] == |s.caches|)
      && s'.tasks == s.tasks - multiset{t}
                     + multiset{if t.Looking? then Opened(t.w, t.url, name, s'.named[name]) else Asking(t.w, s'.named[name])}
      && s'.served == s.served && s'.fetched == s.fetched
  {
  }

  predicate IsFirstWhole(tries: seq<Attempt>, r: Response, k: nat) {
    k < |tries| && Whole(tries[k]) == Some(r) && forall j :: 0 <= j < k ==> Whole(tries[j]) == None
  }

  lemma {:induction false} FirstWholeIsFirst(tries: seq<Attempt>)
    ensures forall r, k: nat :: IsFirstWhole(tries, r, k) ==> FirstWhole(tries) == r
    ensures (forall k :: 0 <= k < |tries| ==> Whole(tries[k]) == None) ==> FirstWhole(tries) == NETWORK_ERROR
    decreases |tries|
  {
    hide Whole;
    if tries != [] {
      FirstWholeIsFirst(tries[1..]);
      forall r, k: nat | IsFirstWhole(tries, r, k) ensures FirstWhole(tries) == r {
        if k > 0 {
          assert forall j :: 0 <= j < k - 1 ==> tries[1..][j] == tries[j + 1];
          assert IsFirstWhole(tries[1..], r, k - 1);
        }
      }
      assert forall j :: 0 <= j < |tries| - 1 ==> tries[1..][j] == tries[j + 1];
    }
  }

  // ---- A purge takes nothing that is kept ----

  ghost predicate PurgesSpare(s: State) {
    forall t :: t in s.tasks && t.Purging? ==> t.stale !! Keep(t.w)
  }

  predicate Spares(t: Task) { t.Purging? ==> t.stale !! Keep(t.w) }

  lemma StepSpares(origin: string, workers: set<Worker>, s: State, a: Action)
    requires PurgesSpare(s) && Enabled(workers, s, a)
    ensures PurgesSpare(Apply(origin, workers, s, a))
  {
    hide Retry, Miss, IsCacheable, Stored, ShellPlan, GoodShell, ShellKey, RouteOf, IsBuilt, EntriesOf, IdOf, Next, Started, PurgesSpare;
    if a.Step? {
      var t, i := a.task, a.input;
      match t {
        case Activating(_) => PurgeSpares(origin, workers, s, t, i);
        case Purging(_, _) => PurgeSpares(origin, workers, s, t, i);
        case Opened(_, _, _, _) => LookSpares(origin, workers, s, t, i);
        case Missed(_, _, _, _) => LookSpares(origin, workers, s, t, i);
        case Asking(_, _) => ShellSpares(origin, workers, s, t, i);
        case FallingBack(_, _, _) => ShellSpares(origin, workers, s, t, i);
        case Storing(_, _, _) => StoringSpares(origin, workers, s, t, i);
        case Installing(_) => InstallingSpares(origin, workers, s, t, i);
        case _ => OpeningSpares(origin, workers, s, t, i);
      }
    } else {
      StartSpares(origin, workers, s, a);
    }
  }

  lemma StartSpares(origin: string, workers: set<Worker>, s: State, a: Action)
    requires PurgesSpare(s) && Enabled(workers, s, a) && !a.Step?
    ensures PurgesSpare(Apply(origin, workers, s, a))
  {
    hide RouteOf, IsBuilt;
  }

  lemma PurgeSpares(origin: string, workers: set<Worker>, s: State, t: Task, i: Input)
    requires PurgesSpare(s) && Enabled(workers, s, Step(t, i)) && (t.Activating? || t.Purging?)
    ensures PurgesSpare(Next(origin, s, t, i))
  {
    SparedTask(s, t);
  }

  lemma LookSpares(origin: string, workers: set<Worker>, s: State, t: Task, i: Input)
    requires PurgesSpare(s) && Enabled(workers, s, Step(t, i)) && (t.Opened? || t.Missed?)
    ensures PurgesSpare(Next(origin, s, t, i))
  {
    hide Miss, IsCacheable;
  }

  lemma ShellSpares(origin: string, workers: set<Worker>, s: State, t: Task, i: Input)
    requires PurgesSpare(s) && Enabled(workers, s, Step(t, i)) && (t.Asking? || t.FallingBack?)
    ensures PurgesSpare(Next(origin, s, t, i))
  {
    hide Retry, ShellPlan, ShellKey;
  }

  lemma OpeningSpares(origin: string, workers: set<Worker>, s: State, t: Task, i: Input)
    requires PurgesSpare(s) && Enabled(workers, s, Step(t, i))
    requires t.Precaching? || t.Looking? || t.Navigating?
    ensures PurgesSpare(Next(origin, s, t, i))
  {
    hide ShellKey, IdOf, Keep;
  }

  lemma InstallingSpares(origin: string, workers: set<Worker>, s: State, t: Task, i: Input)
    requires PurgesSpare(s) && Enabled(workers, s, Step(t, i)) && t.Installing?
    ensures PurgesSpare(Next(origin, s, t, i))
  {
    hide GoodShell, Keep;
  }

  lemma StoringSpares(origin: string, workers: set<Worker>, s: State, t: Task, i: Input)
    requires PurgesSpare(s) && Enabled(workers, s, Step(t, i)) && t.Storing?
    ensures PurgesSpare(Next(origin, s, t, i))
  {
    hide Stored, Keep;
  }

  lemma SparedTask(s: State, t: Task)
    requires PurgesSpare(s) && t in s.tasks
    ensures Spares(t)
  {
  }

  lemma {:induction false} PurgesAlwaysSpare(origin: string, workers: set<Worker>, states: seq<State>, run: seq<Action>,
                                             n: nat)
    requires IsHistory(origin, workers, states, run) && states[0].tasks == multiset{} && n < |states|
    ensures PurgesSpare(states[n])
    decreases n
  {
    if n > 0 {
      hide Enabled, Apply, PurgesSpare;
      PurgesAlwaysSpare(origin, workers, states, run, n - 1);
      StepSpares(origin, workers, states[n - 1], run[n - 1]);
    } else {
      assert forall t :: t !in states[0].tasks;
    }
  }

  /** In every run a name goes away only by the purge of a worker that does not keep it. So the
      blob cache never does, and a shell cache only by a worker of another build. */
  lemma OnlyOthersArePurged(origin: string, workers: set<Worker>, states: seq<State>, run: seq<Action>, k: nat, n: Name)
    requires IsHistory(origin, workers, states, run) && states[0].tasks == multiset{} && k < |run|
    requires n in states[k].named && n !in states[k + 1].named
    ensures run[k].Step? && run[k].task.Purging? && n !in Keep(run[k].task.w)
    ensures n != BlobCache && (n.ShellCache? ==> n.build != run[k].task.w.build)
  {
    PurgesAlwaysSpare(origin, workers, states, run, k);
    NamesGoByPurge(origin, workers, states[k], run[k], n);
    assert run[k].task in states[k].tasks;
  }

  lemma NamesGoByPurge(origin: string, workers: set<Worker>, s: State, a: Action, n: Name)
    requires Enabled(workers, s, a) && n in s.named && n !in Apply(origin, workers, s, a).named
    ensures a.Step? && a.task.Purging? && a.task in s.tasks && n in a.task.stale
  {
    hide Retry, Miss, IsCacheable, Stored, ShellPlan, GoodShell, ShellKey, RouteOf, IsBuilt, EntriesOf;
  }
}
