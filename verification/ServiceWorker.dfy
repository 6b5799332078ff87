/** Which requests the service worker of crates/lucidos-app/public/sw.js takes over,
    and under which URL it stores them. A URL is the origin followed by a path. */
module WorkerRoutes {
  /** One registered worker: the path of its scope, and the build it was stamped with. */
  datatype Worker = Worker(path: string, build: string)

  datatype Request = Request(verb: string, url: string, navigates: bool, isImage: bool)

  /** What the fetch handler does with a request. Native leaves it to the browser. */
  datatype Route = Native | Passed | Blob | Image | Bundle | Shell

  function Get(): string { "GET" }
  function Unstamped(): string { "__" }
  function ApiPrefix(): string { "/api/v1/" }
  function EventsPath(): string { "/api/v1/events" }
  function HealthPath(): string { "/api/v1/health" }
  function BlobPrefix(): string { "/api/v1/blobs/" }
  function DataPrefix(): string { "/data/" }
  function BundlePrefix(): string { "/assets/" }

  predicate StartsWith(s: string, prefix: string) { prefix <= s }

  predicate IsBuilt(w: Worker) { !StartsWith(w.build, Unstamped()) }

  function ScopeRelative(scope: string, path: string): string {
    if StartsWith(path, scope) then "/" + path[|scope|..] else path
  }

  /** The part of s before its first question mark. */
  function BeforeQuery(s: string): string {
    if s == [] || s[0] == '?' then [] else [s[0]] + BeforeQuery(s[1..])
  }

  /** The path a worker matches on; a request of another origin is none of its business. */
  function Relative(origin: string, w: Worker, url: string): string
    requires StartsWith(url, origin)
  {
    ScopeRelative(w.path, BeforeQuery(url[|origin|..]))
  }

  function RouteOf(origin: string, w: Worker, r: Request): Route {
    if r.verb != Get() || !StartsWith(r.url, origin) then Native
    else RouteOfPath(w, r, Relative(origin, w, r.url))
  }

  function RouteOfPath(w: Worker, r: Request, rel: string): Route {
    if StartsWith(rel, ApiPrefix()) then
      if rel == EventsPath() || rel == HealthPath() then Native
      else if StartsWith(rel, BlobPrefix()) then Blob
      else Passed
    else if StartsWith(rel, DataPrefix()) && r.isImage then Image
    else if StartsWith(rel, BundlePrefix()) then Bundle
    else if IsBuilt(w) && r.navigates && rel == "/" then Shell
    else Native
  }

  /** The one URL under which every navigation of a worker stores its shell. */
  function ShellKey(origin: string, w: Worker): string { origin + w.path }

  predicate IsBundleUrl(origin: string, w: Worker, url: string) {
    StartsWith(url, origin) && StartsWith(Relative(origin, w, url), BundlePrefix())
  }

  /** A scope path: it starts and ends with a slash and holds no question mark. */
  predicate IsScope(path: string) {
    |path| > 0 && path[0] == '/' && path[|path| - 1] == '/' && '?' !in path
  }

  lemma {:induction false} QueryFree(s: string, t: string)
    requires '?' !in s
    ensures BeforeQuery(s + t) == s + BeforeQuery(t)
    decreases |s|
  {
    if s == [] {
      assert s + t == t;
    } else {
      assert (s + t)[1..] == s[1..] + t;
      QueryFree(s[1..], t);
      assert (s + t)[0] == s[0];
    }
  }

  lemma QueryFreeAlone(s: string)
    requires '?' !in s
    ensures BeforeQuery(s) == s
  {
    QueryFree(s, []);
    assert s + [] == s;
  }

  lemma {:induction false} BeforeQueryIsPrefix(s: string)
    ensures StartsWith(s, BeforeQuery(s)) && '?' !in BeforeQuery(s)
    decreases |s|
  {
    if s != [] && s[0] != '?' {
      BeforeQueryIsPrefix(s[1..]);
      assert s == [s[0]] + s[1..];
    }
  }

  lemma PrefixesStartWithSlash()
    ensures ApiPrefix()[..1] == "/" && DataPrefix()[..1] == "/" && BundlePrefix()[..1] == "/"
    ensures |ApiPrefix()| == 8 && |DataPrefix()| == 6 && |BundlePrefix()| == 8
  {
  }

  /** The test on the origin has no slash of its own, and needs none: a request that
      is taken over has a slash right after the origin, so a longer host name or
      port never matches. */
  lemma RoutedIsOwnOrigin(origin: string, w: Worker, r: Request)
    requires IsScope(w.path)
    requires RouteOf(origin, w, r) != Native
    ensures r.verb == Get() && StartsWith(r.url, origin + "/")
  {
    var rest := r.url[|origin|..];
    var path := BeforeQuery(rest);
    BeforeQueryIsPrefix(rest);
    var rel := Relative(origin, w, r.url);
    PrefixesStartWithSlash();
    assert |rel| > 0 && rel[0] == '/' by {
      RoutedPathStartsWithSlash(w, r, rel);
    }
    assert |path| > 0 && path[0] == '/' by {
      if StartsWith(path, w.path) {
        assert path[0] == w.path[0];
      }
    }
    assert rest[0] == path[0] == '/';
    assert r.url == origin + rest;
    assert r.url[..|origin| + 1] == origin + "/";
  }

  lemma RoutedPathStartsWithSlash(w: Worker, r: Request, rel: string)
    requires RouteOfPath(w, r, rel) != Native
    ensures |rel| > 0 && rel[0] == '/'
  {
    hide ApiPrefix, DataPrefix, BundlePrefix, EventsPath, HealthPath, BlobPrefix;
    PrefixesStartWithSlash();
    if StartsWith(rel, ApiPrefix()) {
      assert rel[0] == ApiPrefix()[..1][0];
    } else if StartsWith(rel, DataPrefix()) && r.isImage {
      assert rel[0] == DataPrefix()[..1][0];
    } else if StartsWith(rel, BundlePrefix()) {
      assert rel[0] == BundlePrefix()[..1][0];
    }
  }

  /** A request inside the scope of a workspace is treated as the same request is at
      the root: the prefix of the workspace changes nothing. */
  lemma ScopeDoesNotMatter(origin: string, w: Worker, r: Request, rest: string)
    requires IsScope(w.path) && r.url == origin + w.path + rest
    ensures RouteOf(origin, w, r)
         == RouteOf(origin, Worker("/", w.build), r.(url := origin + "/" + rest))
  {
    hide RouteOfPath;
    var root := Worker("/", w.build);
    var there := r.(url := origin + "/" + rest);
    assert r.url == origin + (w.path + rest);
    assert there.url == origin + ("/" + rest);
    assert r.url[|origin|..] == w.path + rest;
    assert there.url[|origin|..] == "/" + rest;
    QueryFree(w.path, rest);
    QueryFree("/", rest);
    assert Relative(origin, w, r.url) == "/" + BeforeQuery(rest);
    assert Relative(origin, root, there.url) == "/" + BeforeQuery(rest);
    assert StartsWith(r.url, origin) && StartsWith(there.url, origin);
    SameRouteAtRoot(w, r, there, "/" + BeforeQuery(rest));
  }

  lemma RelativeInScope(origin: string, w: Worker, url: string, rest: string)
    requires IsScope(w.path) && url == origin + w.path + rest
    ensures StartsWith(url, origin) && Relative(origin, w, url) == "/" + BeforeQuery(rest)
  {
    assert url == origin + (w.path + rest);
    assert url[|origin|..] == w.path + rest;
    QueryFree(w.path, rest);
  }

  /** How a request inside a worker's scope is treated, by its path below the scope, up to the
      query: the stream of events and the health probe are the browser's, blobs and bundles come
      from a cache, other requests to the API and images are passed on, and a navigation to the
      scope itself is the shell of a built worker. */
  function RouteBelow(w: Worker, r: Request, below: string): Route {
    if r.verb != "GET" then Native
    else if "api/v1/" <= below then
      if below == "api/v1/events" || below == "api/v1/health" then Native
      else if "api/v1/blobs/" <= below then Blob else Passed
    else if "data/" <= below && r.isImage then Image
    else if "assets/" <= below then Bundle
    else if below == "" && r.navigates && !("__" <= w.build) then Shell
    else Native
  }

  lemma SlashedPrefix(prefix: string, below: string)
    ensures "/" + prefix <= "/" + below <==> prefix <= below
  {
    if "/" + prefix <= "/" + below {
      assert ("/" + prefix)[1..] == prefix && ("/" + below)[1..] == below;
      assert ("/" + below)[..|prefix| + 1] == "/" + prefix;
      assert below[..|prefix|] == prefix;
    }
  }

  lemma RouteIsExact(origin: string, w: Worker, r: Request, rest: string)
    requires IsScope(w.path) && r.url == origin + w.path + rest
    ensures RouteOf(origin, w, r) == RouteBelow(w, r, BeforeQuery(rest))
  {
    RelativeInScope(origin, w, r.url, rest);
    var below := BeforeQuery(rest);
    PathsAreSlashed();
    SlashedPrefix("api/v1/", below);
    SlashedPrefix("api/v1/blobs/", below);
    SlashedPrefix("data/", below);
    SlashedPrefix("assets/", below);
    SamePath("api/v1/events", below);
    SamePath("api/v1/health", below);
    SamePath("", below);
    hide ApiPrefix, BlobPrefix, DataPrefix, BundlePrefix, EventsPath, HealthPath, BeforeQuery;
  }

  lemma SamePath(path: string, below: string)
    ensures "/" + path == "/" + below <==> path == below
  {
    assert ("/" + path)[1..] == path && ("/" + below)[1..] == below;
  }

  lemma PathsAreSlashed()
    ensures ApiPrefix() == "/" + "api/v1/" && BlobPrefix() == "/" + "api/v1/blobs/"
    ensures DataPrefix() == "/" + "data/" && BundlePrefix() == "/" + "assets/"
    ensures EventsPath() == "/" + "api/v1/events" && HealthPath() == "/" + "api/v1/health"
  {
  }

  lemma SameRouteAtRoot(w: Worker, r: Request, there: Request, rel: string)
    requires there == r.(url := there.url)
    ensures RouteOfPath(w, r, rel) == RouteOfPath(Worker("/", w.build), there, rel)
  {
  }

  lemma BundleRouteIsBundleUrl(origin: string, w: Worker, r: Request)
    requires RouteOf(origin, w, r) == Bundle
    ensures IsBundleUrl(origin, w, r.url)
  {
  }

  // ---- The keys of several workspaces on one origin ----

  /** No bundle URL of any of the workers is the shell key of one of them. */
  ghost predicate Apart(origin: string, workers: set<Worker>) {
    forall v, w :: v in workers && w in workers ==> !IsBundleUrl(origin, v, ShellKey(origin, w))
  }

  lemma ShellKeyRelative(origin: string, v: Worker, w: Worker)
    requires IsScope(w.path)
    ensures StartsWith(ShellKey(origin, w), origin)
    ensures Relative(origin, v, ShellKey(origin, w)) == ScopeRelative(v.path, w.path)
  {
    assert ShellKey(origin, w)[|origin|..] == w.path;
    QueryFreeAlone(w.path);
  }

  lemma OneWorkerIsApart(origin: string, w: Worker)
    requires IsScope(w.path)
    ensures Apart(origin, {w})
  {
    ShellKeyRelative(origin, w, w);
    assert ScopeRelative(w.path, w.path) == "/";
    PrefixesStartWithSlash();
  }

  /** The scope of the workspace of that slug, or of the root when there is none. */
  function ScopeOf(slug: string): string { if slug == [] then "/" else "/" + slug + "/" }

  predicate IsSlug(slug: string) { '/' !in slug && '?' !in slug }

  lemma ScopeOfIsScope(slug: string)
    requires IsSlug(slug)
    ensures IsScope(ScopeOf(slug))
  {
  }

  /** A workspace lies under the scope of another only when it is the same one. */
  lemma UnderMeansSame(slug: string, other: string)
    requires IsSlug(slug) && IsSlug(other) && slug != []
    ensures StartsWith(ScopeOf(other), ScopeOf(slug)) ==> other == slug
  {
    var s, t := ScopeOf(slug), ScopeOf(other);
    if s <= t {
      assert t == "/" + other + "/";
      assert t[|slug| + 1] == s[|slug| + 1] == '/';
      assert forall i :: 0 < i <= |other| ==> t[i] == other[i - 1] && t[i] != '/';
      assert other == t[1..|t| - 1] == s[1..|s| - 1] == slug;
    }
  }

  function AssetsSlug(): string { "assets" }

  lemma BundleScope()
    ensures BundlePrefix() == ScopeOf(AssetsSlug()) && IsSlug(AssetsSlug()) && AssetsSlug() != []
  {
    assert BundlePrefix() == "/" + AssetsSlug() + "/";
  }

  lemma PrefixOfScopeIsScope(slug: string, prefix: string)
    requires IsSlug(slug) && IsSlug(prefix) && prefix != []
    ensures StartsWith(ScopeOf(slug), ScopeOf(prefix)) <==> slug == prefix
  {
    UnderMeansSame(prefix, slug);
  }

  /** The shell key of one workspace is a bundle URL of another exactly when the
      workspace is called "assets". */
  lemma ClashIsTheAssetsSlug(origin: string, v: Worker, w: Worker, vSlug: string, wSlug: string)
    requires IsSlug(vSlug) && IsSlug(wSlug) && v.path == ScopeOf(vSlug) && w.path == ScopeOf(wSlug)
    ensures IsBundleUrl(origin, v, ShellKey(origin, w)) <==> wSlug == AssetsSlug() && vSlug != wSlug
  {
    hide BundlePrefix, AssetsSlug, BeforeQuery, Relative;
    ScopeOfIsScope(wSlug);
    ShellKeyRelative(origin, v, w);
    BundleScope();
    PrefixOfScopeIsScope(wSlug, AssetsSlug());
    if vSlug == wSlug {
      assert ScopeRelative(v.path, w.path) == "/";
      PrefixesStartWithSlash();
    } else if vSlug == [] {
      assert ScopeRelative(v.path, w.path) == "/" + w.path[1..] == w.path;
    } else {
      UnderMeansSame(vSlug, wSlug);
      assert ScopeRelative(v.path, w.path) == w.path;
    }
  }
}

/** The body reader of sw.js: fetchWhole and readWhole, over what the network does. */
module WholeBody {
  import opened Wrappers

  /** What one read of a body brings: bytes, its end, or an error. A stall that
      reaches the idle limit is an error too. */
  datatype Read = Chunk(bytes: seq<bv8>) | End | Broken

  datatype Body = NoBody | Stream(feed: seq<Read>) | Memory(bytes: seq<bv8>)

  /** The Content-Length header (RFC 9110, section 8.6) as a number: absent or empty
      counts as 0, and text that is no number compares false with everything. */
  datatype Length = NotANumber | Declared(value: real)

  datatype Response = Response(
    status: nat,
    redirected: bool,
    url: string,
    contentType: Option<string>,
    pairing: string,
    bootSplash: string,
    encoded: bool,
    length: Length,
    body: Body)

  /** What one call to fetch brings. */
  datatype Attempt = Rejected | Answered(response: Response)

  const WHOLE_BODY_ATTEMPTS: nat := 3

  /** The network error the worker hands out when every attempt failed. */
  const NETWORK_ERROR := Response(0, false, "", None, "", "", false, Declared(0.0), NoBody)

  predicate Ok(r: Response) { 200 <= r.status <= 299 }

  /** The bytes of a body read to its end, or nothing when it breaks or never ends. */
  function Drain(feed: seq<Read>): Option<seq<bv8>>
    decreases |feed|
  {
    if feed == [] || feed[0] == Broken then None
    else if feed[0] == End then Some([])
    else
      var rest := Drain(feed[1..]);
      if rest == None then None else Some(feed[0].bytes + rest.value)
  }

  /** The length check: only a positive length on an unencoded body can be counted. */
  predicate Short(r: Response, received: nat) {
    !r.encoded && r.length.Declared? && r.length.value > 0.0 && received as real != r.length.value
  }

  function Rebuilt(r: Response, bytes: seq<bv8>): Response {
    r.(redirected := false, url := "", encoded := false,
       length := Declared(|bytes| as real), body := Memory(bytes))
  }

  /** readWhole: the response to hand on, or nothing when it throws. */
  function Whole(a: Attempt): Option<Response> {
    if a.Rejected? then None
    else if !Ok(a.response) || !a.response.body.Stream? then Some(a.response)
    else
      var bytes := Drain(a.response.body.feed);
      if bytes == None || Short(a.response, |bytes.value|) then None
      else Some(Rebuilt(a.response, bytes.value))
  }

  lemma {:induction false} DrainAppend(feed: seq<Read>, k: nat, got: seq<bv8>)
    requires k < |feed|
    ensures feed[k].Chunk? ==>
      (Drain(feed[k..]) == None <==> Drain(feed[k + 1..]) == None)
      && (Drain(feed[k..]).Some? ==>
            got + Drain(feed[k..]).value == (got + feed[k].bytes) + Drain(feed[k + 1..]).value)
  {
    var tail := feed[k..];
    assert tail[0] == feed[k] && tail[1..] == feed[k + 1..];
  }

  /** One attempt: feed chunk by chunk, and counts. */
  method ReadWhole(a: Attempt) returns (out: Option<Response>)
    ensures out == Whole(a)
  {
    if a.Rejected? { return None; }
    var response := a.response;
    if !Ok(response) || !response.body.Stream? { return Some(response); }
    var feed := response.body.feed;
    var chunks: seq<bv8> := [];
    var received := 0;
    var k := 0;
    while true
      invariant k <= |feed| && received == |chunks|
      invariant Drain(feed) == None <==> Drain(feed[k..]) == None
      invariant Drain(feed[k..]).Some? ==> Drain(feed).value == chunks + Drain(feed[k..]).value
      decreases |feed| - k
    {
      if k == |feed| || feed[k] == Broken {
        return None;
      }
      if feed[k] == End {
        assert Drain(feed[k..]) == Some([]);
        assert chunks + [] == chunks;
        break;
      }
      DrainAppend(feed, k, chunks);
      chunks := chunks + feed[k].bytes;
      received := received + |feed[k].bytes|;
      k := k + 1;
    }
    if !response.encoded && response.length.Declared? && response.length.value > 0.0
       && received as real != response.length.value {
      return None;
    }
    return Some(Rebuilt(response, chunks));
  }

  /** The first attempt that came through whole, among the first few. */
  function FirstWhole(attempts: seq<Attempt>): Response
    decreases |attempts|
  {
    if attempts == [] then NETWORK_ERROR
    else if Whole(attempts[0]).Some? then Whole(attempts[0]).value
    else FirstWhole(attempts[1..])
  }

  /** fetchWhole. The network's answer to the k-th try is attempts[k]; skipped says of each
      try that was made whether it had to skip the HTTP cache. */
  method FetchWhole(attempts: seq<Attempt>) returns (out: Response, skipped: seq<bool>)
    requires |attempts| == WHOLE_BODY_ATTEMPTS
    ensures out == FirstWhole(attempts)
    ensures 1 <= |skipped| <= WHOLE_BODY_ATTEMPTS
    ensures forall k :: 0 <= k < |skipped| ==> (skipped[k] <==> k > 0)
    ensures forall k :: 0 <= k < |skipped| - 1 ==> Whole(attempts[k]) == None
    ensures |skipped| < WHOLE_BODY_ATTEMPTS ==> Whole(attempts[|skipped| - 1]) != None
  {
    skipped := [];
    var attempt := 1;
    while attempt <= WHOLE_BODY_ATTEMPTS
      invariant 1 <= attempt <= WHOLE_BODY_ATTEMPTS + 1 && |skipped| == attempt - 1
      invariant forall k :: 0 <= k < |skipped| ==> (skipped[k] <==> k > 0)
      invariant forall k :: 0 <= k < |skipped| ==> Whole(attempts[k]) == None
      invariant FirstWhole(attempts) == FirstWhole(attempts[attempt - 1..])
    {
      skipped := skipped + [attempt != 1];
      var whole := ReadWhole(attempts[attempt - 1]);
      if whole.Some? { return whole.value, skipped; }
      assert attempts[attempt - 1..][1..] == attempts[attempt..];
      attempt := attempt + 1;
    }
    out := NETWORK_ERROR;
  }

  /** Every chunk up to the end of the stream, and nothing after it. */
  ghost predicate IsWholeOf(feed: seq<Read>, bytes: seq<bv8>) {
    exists n: nat :: EndsAt(feed, n) && bytes == Joined(feed[..n])
  }

  predicate EndsAt(feed: seq<Read>, n: nat) {
    n < |feed| && feed[n] == End && forall k :: 0 <= k < n ==> feed[k].Chunk?
  }

  function Joined(chunks: seq<Read>): seq<bv8>
    requires forall k :: 0 <= k < |chunks| ==> chunks[k].Chunk?
    decreases |chunks|
  {
    if chunks == [] then [] else chunks[0].bytes + Joined(chunks[1..])
  }

  lemma {:induction false} DrainIsWhole(feed: seq<Read>)
    ensures Drain(feed).Some? ==> IsWholeOf(feed, Drain(feed).value)
    decreases |feed|
  {
    if Drain(feed).Some? {
      if feed[0] == End {
        assert EndsAt(feed, 0) && Joined(feed[..0]) == [];
      } else {
        DrainIsWhole(feed[1..]);
        var n: nat :| EndsAt(feed[1..], n) && Drain(feed[1..]).value == Joined(feed[1..][..n]);
        assert feed[..n + 1][1..] == feed[1..][..n] && feed[..n + 1][0] == feed[0];
        assert forall k :: 0 <= k < n + 1 ==> feed[k].Chunk? by {
          forall k | 0 <= k < n + 1 ensures feed[k].Chunk? {
            if k > 0 { assert feed[k] == feed[1..][k - 1]; }
          }
        }
        assert EndsAt(feed, n + 1) && Drain(feed).value == Joined(feed[..n + 1]);
      }
    }
  }

  /** And a stream that comes to its end is drained. */
  lemma {:induction false} WholeIsDrained(feed: seq<Read>, n: nat)
    requires EndsAt(feed, n)
    ensures Drain(feed) == Some(Joined(feed[..n]))
    decreases n
  {
    if n == 0 {
      assert feed[..0] == [];
    } else {
      assert feed[0].Chunk?;
      assert feed[1..][n - 1] == End && forall k :: 0 <= k < n - 1 ==> feed[1..][k] == feed[k + 1];
      WholeIsDrained(feed[1..], n - 1);
      assert feed[..n][1..] == feed[1..][..n - 1] && feed[..n][0] == feed[0];
    }
  }

  /** The length the server declared, when it can be held against the bytes: positive, and on
      a body that is not encoded. */
  predicate Contradicts(r: Response, bytes: seq<bv8>) {
    !r.encoded && r.length.Declared? && r.length.value > 0.0 && r.length.value != |bytes| as real
  }

  /** One try, without the reader: it comes through unless it is rejected, or its stream never
      comes to its end, or the length contradicts the bytes. It is passed on as it is when it is
      no success or has no stream, and otherwise with all its bytes and their number. */
  lemma WholeIsExact(a: Attempt)
    ensures a.Rejected? ==> Whole(a) == None
    ensures a.Answered? && (!(200 <= a.response.status <= 299) || !a.response.body.Stream?) ==> Whole(a) == Some(a.response)
    ensures a.Answered? && 200 <= a.response.status <= 299 && a.response.body.Stream? ==>
      && ((forall n: nat :: !EndsAt(a.response.body.feed, n)) ==> Whole(a) == None)
      && forall n: nat :: EndsAt(a.response.body.feed, n) ==>
           var bytes := Joined(a.response.body.feed[..n]);
           if Contradicts(a.response, bytes) then Whole(a) == None
           else Whole(a).Some? && Whole(a).value.body == Memory(bytes) && Whole(a).value.status == a.response.status
                && Whole(a).value.length == Declared(|bytes| as real) && !Whole(a).value.encoded
                && Whole(a).value.contentType == a.response.contentType
  {
    if a.Answered? && a.response.body.Stream? {
      var feed := a.response.body.feed;
      DrainIsWhole(feed);
      forall n: nat | EndsAt(feed, n) ensures Drain(feed) == Some(Joined(feed[..n])) {
        WholeIsDrained(feed, n);
      }
    }
  }

  /** What a good response of fetchWhole is: an answer the server gave on one of the tries,
      as it came when it had no stream; and when it had one, the stream read to its end,
      as long as it was declared to be, and relabelled with its own length. */
  ghost predicate IsCompleteAnswer(answer: Response, out: Response) {
    if !answer.body.Stream? then out == answer
    else
      exists bytes :: IsWholeOf(answer.body.feed, bytes) && out == Rebuilt(answer, bytes)
        && (!answer.encoded && answer.length.Declared? && answer.length.value > 0.0
            ==> answer.length.value == |bytes| as real)
  }

  /** One of the tries brought out, whole. */
  ghost predicate CameFrom(attempts: seq<Attempt>, out: Response) {
    exists k ::
      0 <= k < |attempts| && attempts[k].Answered? && IsCompleteAnswer(attempts[k].response, out)
  }

  lemma {:induction false} GoodMeansComplete(attempts: seq<Attempt>)
    requires Ok(FirstWhole(attempts))
    ensures CameFrom(attempts, FirstWhole(attempts))
    decreases |attempts|
  {
    var first := Whole(attempts[0]);
    if first.Some? {
      var answer := attempts[0].response;
      if answer.body.Stream? {
        DrainIsWhole(answer.body.feed);
      }
      assert IsCompleteAnswer(answer, FirstWhole(attempts));
    } else {
      GoodMeansComplete(attempts[1..]);
      var k :| 0 <= k < |attempts| - 1 && attempts[1..][k].Answered?
        && IsCompleteAnswer(attempts[1..][k].response, FirstWhole(attempts[1..]));
      assert attempts[k + 1] == attempts[1..][k];
    }
  }
}

/** The handlers of sw.js as a machine that any number of workers of one origin share.
    Each event is a task, and every await of the code is a point where another task
    may run. */
module CacheSteps {
  import opened Wrappers
  import opened WorkerRoutes
  import opened WholeBody

  /** The name of a cache. The shell cache of each build has a name of its own. */
  datatype Name = BlobCache | ShellCache(build: string) | OtherCache(name: string)

  datatype Cache = Cache(name: Name, entries: map<string, Response>)

  /** What a page is given: a network error, a response, or a redirect. */
  datatype Answer = Failure | Reply(response: Response) | RedirectTo(url: string)

  /** Where a handler stands: what it has in hand, and what it awaits. A handler that has
      opened a cache holds on to it, also after its name was deleted. */
  datatype Task =
    | Installing(w: Worker)
    | Precaching(w: Worker, response: Response)
    | Activating(w: Worker)
    | Purging(w: Worker, stale: set<Name>)
    | Looking(w: Worker, url: string, name: Name)
    | Opened(w: Worker, url: string, name: Name, id: nat)
    | Missed(w: Worker, url: string, name: Name, id: nat)
    | Navigating(w: Worker)
    | Asking(w: Worker, id: nat)
    | FallingBack(w: Worker, id: nat, answer: Answer)
    | Storing(id: nat, key: string, response: Response)

  /** What the network answered to the tries made for a URL that a cache missed. */
  datatype Fetch = Fetch(name: Name, url: string, tries: seq<Attempt>)

  datatype Served = Served(name: Name, key: string, isShell: bool, fromCache: bool, answer: Answer)

  /** Every cache ever opened, which one each name stands for now, the running tasks, and
      what was fetched and handed out so far. */
  datatype State = State(
    caches: seq<Cache>,
    named: map<Name, nat>,
    tasks: multiset<Task>,
    fetched: seq<Fetch>,
    served: seq<Served>)

  /** What the outside adds to a step: the network's answers, the next name to delete, and
      whether a write to a cache succeeds. */
  datatype Input = Input(tries: seq<Attempt>, victim: Name, writes: bool)

  datatype Action =
    | Install(w: Worker)
    | Activate(w: Worker)
    | Ask(w: Worker, request: Request)
    | Step(task: Task, input: Input)

  function Html(): string { "text/html" }

  predicate Contains(s: string, part: string) {
    exists k :: 0 <= k <= |s| && part <= s[k..]
  }

  predicate IsHtml(r: Response) { r.contentType.Some? && Contains(r.contentType.value, Html()) }

  predicate IsPairing(r: Response) { r.pairing != [] }

  predicate GoodShell(r: Response) { Ok(r) && !r.redirected && !IsPairing(r) }

  predicate GoodBundle(r: Response) { Ok(r) && !IsHtml(r) }

  function Keep(w: Worker): set<Name> { {BlobCache, ShellCache(w.build)} }

  /** fetchWithRetry. */
  function Retry(tries: seq<Attempt>): (a: Answer)
    requires |tries| == WHOLE_BODY_ATTEMPTS
    ensures !a.RedirectTo?
  {
    if tries[0].Answered? then Reply(tries[0].response)
    else if tries[1].Answered? then Reply(tries[1].response)
    else Failure
  }

  /** How a cache that missed gets its response: bundles whole, blobs with one retry. */
  function Miss(name: Name, tries: seq<Attempt>): (a: Answer)
    requires |tries| == WHOLE_BODY_ATTEMPTS
    ensures !a.RedirectTo?
  {
    if name.ShellCache? then Reply(FirstWhole(tries)) else Retry(tries)
  }

  predicate IsCacheable(name: Name, a: Answer) {
    a.Reply? && if name.ShellCache? then GoodBundle(a.response) else Ok(a.response)
  }

  /** What a write leaves in a cache: the body read to its end. A body that breaks is not
      stored, and neither is a partial answer (status 206). */
  function Stored(r: Response): Option<Response> {
    if r.status == 206 then None
    else if !r.body.Stream? then Some(r)
    else if Drain(r.body.feed) == None then None
    else Some(r.(body := Memory(Drain(r.body.feed).value)))
  }

  datatype Plan = ShowIt | StoreIt | SendOn | FallBack

  /** What networkFirstShell does with the server's answer. */
  function ShellPlan(r: Response): Plan {
    if IsPairing(r) then ShowIt
    else if Ok(r) && !r.redirected then StoreIt
    else if r.redirected && r.url != [] then SendOn
    else if r.status == 503 || r.bootSplash != [] then ShowIt
    else FallBack
  }

  function EntriesOf(s: State, id: nat): map<string, Response> {
    if id < |s.caches| then s.caches[id].entries else map[]
  }

  function IdOf(s: State, name: Name): nat {
    if name in s.named then s.named[name] else |s.caches|
  }

  function Open(s: State, name: Name): State {
    if name in s.named then s
    else s.(caches := s.caches + [Cache(name, map[])], named := s.named[name := |s.caches|])
  }

  /** Task t goes on as the tasks in more. */
  function Becomes(s: State, t: Task, more: multiset<Task>): State {
    s.(tasks := s.tasks - multiset{t} + more)
  }

  function Serve(s: State, v: Served): State { s.(served := s.served + [v]) }

  function Write(s: State, id: nat, key: string, r: Response): State {
    if id < |s.caches| then
      var c := s.caches[id];
      s.(caches := s.caches[id := c.(entries := c.entries[key := r])])
    else s
  }

  function InstallStep(s: State, t: Task, i: Input): State
    requires t.Installing? && |i.tries| == WHOLE_BODY_ATTEMPTS
  {
    var a := i.tries[0];
    Becomes(s, t,
      if a.Answered? && GoodShell(a.response) then multiset{Precaching(t.w, a.response)} else multiset{})
  }

  function PurgeStep(s: State, t: Task, i: Input): State
    requires t.Purging?
  {
    if t.stale == {} then Becomes(s, t, multiset{})
    else Becomes(s.(named := s.named - {i.victim}), t, multiset{Purging(t.w, t.stale - {i.victim})})
  }

  function LookStep(s: State, t: Task): State
    requires t.Opened?
  {
    var found := EntriesOf(s, t.id);
    if t.url in found then
      Becomes(Serve(s, Served(t.name, t.url, false, true, Reply(found[t.url]))), t, multiset{})
    else Becomes(s, t, multiset{Missed(t.w, t.url, t.name, t.id)})
  }

  function MissStep(s: State, t: Task, i: Input): State
    requires t.Missed? && |i.tries| == WHOLE_BODY_ATTEMPTS
  {
    var a := Miss(t.name, i.tries);
    var s1 := s.(fetched := s.fetched + [Fetch(t.name, t.url, i.tries)]);
    Becomes(Serve(s1, Served(t.name, t.url, false, false, a)), t,
      if IsCacheable(t.name, a) then multiset{Storing(t.id, t.url, a.response)} else multiset{})
  }

  function ShellStep(origin: string, s: State, t: Task, i: Input): State
    requires t.Asking? && |i.tries| == WHOLE_BODY_ATTEMPTS
  {
    var a := Retry(i.tries);
    var name, key := ShellCache(t.w.build), ShellKey(origin, t.w);
    if a.Failure? then Becomes(s, t, multiset{FallingBack(t.w, t.id, a)})
    else
      match ShellPlan(a.response)
      case ShowIt => Becomes(Serve(s, Served(name, key, true, false, a)), t, multiset{})
      case StoreIt =>
        Becomes(Serve(s, Served(name, key, true, false, a)), t, multiset{Storing(t.id, key, a.response)})
      case SendOn =>
        Becomes(Serve(s, Served(name, key, true, false, RedirectTo(a.response.url))), t, multiset{})
      case FallBack => Becomes(s, t, multiset{FallingBack(t.w, t.id, a)})
  }

  function FallStep(origin: string, s: State, t: Task): State
    requires t.FallingBack?
  {
    var name, key := ShellCache(t.w.build), ShellKey(origin, t.w);
    var found := EntriesOf(s, t.id);
    Becomes(Serve(s,
      if key in found then Served(name, key, true, true, Reply(found[key]))
      else Served(name, key, true, false, t.answer)), t, multiset{})
  }

  function StoreStep(s: State, t: Task, i: Input): State
    requires t.Storing?
  {
    Becomes(
      if i.writes && Stored(t.response).Some? then Write(s, t.id, t.key, Stored(t.response).value) else s,
      t, multiset{})
  }

  /** Task t runs on to its next await. */
  function Next(origin: string, s: State, t: Task, i: Input): State
    requires |i.tries| == WHOLE_BODY_ATTEMPTS
  {
    match t
    case Installing(w) => InstallStep(s, t, i)
    case Precaching(w, r) =>
      var name := ShellCache(w.build);
      Becomes(Open(s, name), t, multiset{Storing(IdOf(s, name), ShellKey(origin, w), r)})
    case Activating(w) => Becomes(s, t, multiset{Purging(w, s.named.Keys - Keep(w))})
    case Purging(_, _) => PurgeStep(s, t, i)
    case Looking(w, url, name) =>
      Becomes(Open(s, name), t, multiset{Opened(w, url, name, IdOf(s, name))})
    case Opened(_, _, _, _) => LookStep(s, t)
    case Missed(_, _, _, _) => MissStep(s, t, i)
    case Navigating(w) =>
      var name := ShellCache(w.build);
      Becomes(Open(s, name), t, multiset{Asking(w, IdOf(s, name))})
    case Asking(_, _) => ShellStep(origin, s, t, i)
    case FallingBack(_, _, _) => FallStep(origin, s, t)
    case Storing(_, _, _) => StoreStep(s, t, i)
  }

  /** The tasks an event starts. Requests that no cache serves start none. */
  function Started(origin: string, a: Action): multiset<Task>
    requires !a.Step?
  {
    match a
    case Install(w) => if IsBuilt(w) then multiset{Installing(w)} else multiset{}
    case Activate(w) => multiset{Activating(w)}
    case Ask(w, r) =>
      (match RouteOf(origin, w, r)
       case Blob => multiset{Looking(w, r.url, BlobCache)}
       case Bundle => multiset{Looking(w, r.url, ShellCache(w.build))}
       case Shell => multiset{Navigating(w)}
       case _ => multiset{})
  }

  predicate Enabled(workers: set<Worker>, s: State, a: Action) {
    match a
    case Install(w) => w in workers
    case Activate(w) => w in workers
    case Ask(w, _) => w in workers
    case Step(t, i) =>
      t in s.tasks && |i.tries| == WHOLE_BODY_ATTEMPTS
      && (t.Purging? && t.stale != {} ==> i.victim in t.stale)
  }

  function Apply(origin: string, workers: set<Worker>, s: State, a: Action): State
    requires Enabled(workers, s, a)
  {
    if a.Step? then Next(origin, s, a.task, a.input)
    else s.(tasks := s.tasks + Started(origin, a))
  }

  predicate CanRun(origin: string, workers: set<Worker>, s: State, run: seq<Action>)
    decreases |run|
  {
    run == [] || (Enabled(workers, s, run[0])
                  && CanRun(origin, workers, Apply(origin, workers, s, run[0]), run[1..]))
  }

  function After(origin: string, workers: set<Worker>, s: State, run: seq<Action>): State
    requires CanRun(origin, workers, s, run)
    decreases |run|
  {
    if run == [] then s else After(origin, workers, Apply(origin, workers, s, run[0]), run[1..])
  }

  /** Before any worker ran: nothing but caches that are none of theirs. */
  predicate Initial(s: State) {
    (forall n :: n in s.named ==> n.OtherCache?)
    && (forall c :: c in s.caches ==> c.name.OtherCache?)
    && (forall n :: n in s.named ==> s.named[n] < |s.caches| && s.caches[s.named[n]].name == n)
    && s.tasks == multiset{} && s.fetched == [] && s.served == []
  }
}

/** What the caches hold in every reachable state. */
module CacheSafety {
  import opened Wrappers
  import opened WorkerRoutes
  import opened WholeBody
  import opened CacheSteps

  /** The entry is what the network brought for just this URL, judged fit for the cache. */
  ghost predicate Genuine(fetched: seq<Fetch>, name: Name, key: string, r: Response) {
    exists f :: f in fetched && IsSourceOf(f, name, key, r)
  }

  predicate IsSourceOf(f: Fetch, name: Name, key: string, r: Response) {
    f.name == name && f.url == key && |f.tries| == WHOLE_BODY_ATTEMPTS
    && IsCacheable(name, Miss(name, f.tries)) && Stored(Miss(name, f.tries).response) == Some(r)
  }

  ghost predicate IsShellKey(origin: string, workers: set<Worker>, key: string) {
    exists w :: w in workers && key == ShellKey(origin, w)
  }

  ghost predicate IsBundleKey(origin: string, workers: set<Worker>, key: string) {
    exists w :: w in workers && IsBundleUrl(origin, w, key)
  }

  ghost predicate EntryOk(origin: string, workers: set<Worker>, fetched: seq<Fetch>,
                          name: Name, key: string, r: Response) {
    match name
    case OtherCache(_) => true
    case BlobCache => Genuine(fetched, name, key, r)
    case ShellCache(_) =>
      (IsShellKey(origin, workers, key) && GoodShell(r))
      || (IsBundleKey(origin, workers, key) && Genuine(fetched, name, key, r))
  }

  predicate Holds(caches: seq<Cache>, id: nat, name: Name) {
    id < |caches| && caches[id].name == name
  }

  ghost predicate LookOk(origin: string, workers: set<Worker>, w: Worker, url: string, name: Name) {
    w in workers && (name == BlobCache || (name == ShellCache(w.build) && IsBundleUrl(origin, w, url)))
  }

  ghost predicate PutOk(origin: string, workers: set<Worker>, fetched: seq<Fetch>,
                        caches: seq<Cache>, id: nat, key: string, r: Response) {
    id < |caches|
    && (Stored(r).Some? ==>
          EntryOk(origin, workers, fetched, caches[id].name, key, Stored(r).value))
  }

  ghost predicate TaskOk(origin: string, workers: set<Worker>, fetched: seq<Fetch>,
                         caches: seq<Cache>, t: Task) {
    match t
    case Installing(w) => w in workers
    case Precaching(w, r) => w in workers && GoodShell(r)
    case Activating(w) => w in workers
    case Purging(w, _) => w in workers
    case Looking(w, url, name) => LookOk(origin, workers, w, url, name)
    case Opened(w, url, name, id) => LookOk(origin, workers, w, url, name) && Holds(caches, id, name)
    case Missed(w, url, name, id) => LookOk(origin, workers, w, url, name) && Holds(caches, id, name)
    case Navigating(w) => w in workers
    case Asking(w, id) => w in workers && Holds(caches, id, ShellCache(w.build))
    case FallingBack(w, id, _) => w in workers && Holds(caches, id, ShellCache(w.build))
    case Storing(id, key, r) => PutOk(origin, workers, fetched, caches, id, key, r)
  }

  /** Whatever a cache handed out was fit to be in it; a shell from the cache was a shell. */
  ghost predicate ServedOk(origin: string, workers: set<Worker>, fetched: seq<Fetch>, v: Served) {
    v.fromCache ==>
      v.answer.Reply? && !v.name.OtherCache?
      && EntryOk(origin, workers, fetched, v.name, v.key, v.answer.response)
      && (v.isShell ==> v.name.ShellCache? && GoodShell(v.answer.response))
  }

  ghost predicate NamesOk(s: State) {
    forall n :: n in s.named ==> Holds(s.caches, s.named[n], n)
  }

  ghost predicate CacheOk(origin: string, workers: set<Worker>, fetched: seq<Fetch>, c: Cache) {
    forall key :: key in c.entries ==> EntryOk(origin, workers, fetched, c.name, key, c.entries[key])
  }

  ghost predicate CachesOk(origin: string, workers: set<Worker>, s: State) {
    forall c :: c in s.caches ==> CacheOk(origin, workers, s.fetched, c)
  }

  ghost predicate TasksOk(origin: string, workers: set<Worker>, s: State) {
    forall t :: t in s.tasks ==> TaskOk(origin, workers, s.fetched, s.caches, t)
  }

  ghost predicate AllServedOk(origin: string, workers: set<Worker>, s: State) {
    forall v :: v in s.served ==> ServedOk(origin, workers, s.fetched, v)
  }

  ghost predicate Inv(origin: string, workers: set<Worker>, s: State) {
    NamesOk(s) && CachesOk(origin, workers, s) && TasksOk(origin, workers, s)
    && AllServedOk(origin, workers, s)
  }

  // ---- What a step never takes back ----

  ghost predicate SameNames(a: seq<Cache>, b: seq<Cache>) {
    |a| <= |b| && forall k :: 0 <= k < |a| ==> a[k].name == b[k].name
  }

  ghost predicate Grown(s: State, s': State) {
    s.fetched <= s'.fetched && SameNames(s.caches, s'.caches)
  }

  lemma EntryOkGrows(origin: string, workers: set<Worker>, f: seq<Fetch>, f': seq<Fetch>,
                     name: Name, key: string, r: Response)
    requires f <= f' && EntryOk(origin, workers, f, name, key, r)
    ensures EntryOk(origin, workers, f', name, key, r)
  {
    hide IsShellKey, IsBundleKey, IsSourceOf, GoodShell;
    if Genuine(f, name, key, r) {
      var g :| g in f && IsSourceOf(g, name, key, r);
      assert g in f';
    }
  }

  lemma TaskOkGrows(origin: string, workers: set<Worker>, s: State, s': State, t: Task)
    requires Grown(s, s') && TaskOk(origin, workers, s.fetched, s.caches, t)
    ensures TaskOk(origin, workers, s'.fetched, s'.caches, t)
  {
    hide EntryOk, LookOk, GoodShell, Stored;
    if t.Storing? && Stored(t.response).Some? {
      EntryOkGrows(origin, workers, s.fetched, s'.fetched, s.caches[t.id].name, t.key,
        Stored(t.response).value);
    }
  }

  /** Opening caches and recording fetches keeps what is in order. */
  lemma GrowthKeeps(origin: string, workers: set<Worker>, s: State, s': State)
    requires Inv(origin, workers, s) && Grown(s, s') && NamesOk(s')
    requires s'.tasks == s.tasks && s'.served == s.served
    requires forall c :: c in s'.caches ==> c in s.caches || c.entries == map[]
    ensures Inv(origin, workers, s')
  {
    hide EntryOk, TaskOk, GoodShell, NamesOk;
    forall c | c in s'.caches ensures CacheOk(origin, workers, s'.fetched, c) {
      forall key | key in c.entries
        ensures EntryOk(origin, workers, s'.fetched, c.name, key, c.entries[key])
      {
        assert CacheOk(origin, workers, s.fetched, c);
        EntryOkGrows(origin, workers, s.fetched, s'.fetched, c.name, key, c.entries[key]);
      }
    }
    forall t | t in s'.tasks ensures TaskOk(origin, workers, s'.fetched, s'.caches, t) {
      TaskOkGrows(origin, workers, s, s', t);
    }
    forall v | v in s'.served ensures ServedOk(origin, workers, s'.fetched, v) {
      ServedOkGrows(origin, workers, s.fetched, s'.fetched, v);
    }
  }

  lemma ServedOkGrows(origin: string, workers: set<Worker>, f: seq<Fetch>, f': seq<Fetch>, v: Served)
    requires f <= f' && ServedOk(origin, workers, f, v)
    ensures ServedOk(origin, workers, f', v)
  {
    hide EntryOk, GoodShell;
    if v.fromCache {
      EntryOkGrows(origin, workers, f, f', v.name, v.key, v.answer.response);
    }
  }

  /** A task may go on as any tasks that are in order. */
  lemma BecomesKeeps(origin: string, workers: set<Worker>, s: State, t: Task, more: multiset<Task>)
    requires Inv(origin, workers, s)
    requires forall u :: u in more ==> TaskOk(origin, workers, s.fetched, s.caches, u)
    ensures Inv(origin, workers, Becomes(s, t, more))
  {
    hide TaskOk, CacheOk, ServedOk;
  }

  lemma ServeKeeps(origin: string, workers: set<Worker>, s: State, v: Served)
    requires Inv(origin, workers, s) && ServedOk(origin, workers, s.fetched, v)
    ensures Inv(origin, workers, Serve(s, v))
  {
    hide TaskOk, CacheOk, ServedOk;
  }

  lemma OpenKeeps(origin: string, workers: set<Worker>, s: State, name: Name)
    requires Inv(origin, workers, s)
    ensures Inv(origin, workers, Open(s, name))
    ensures Holds(Open(s, name).caches, IdOf(s, name), name)
    ensures Open(s, name).fetched == s.fetched
  {
    hide Inv, Open, IdOf, Grown;
    assert NamesOk(s) by { InvMeansNamesOk(origin, workers, s); }
    OpenHolds(s, name);
    GrowthKeeps(origin, workers, s, Open(s, name));
  }

  lemma InvMeansNamesOk(origin: string, workers: set<Worker>, s: State)
    requires Inv(origin, workers, s)
    ensures NamesOk(s)
  {
    hide NamesOk, CachesOk, TasksOk, AllServedOk;
  }

  lemma OpenHolds(s: State, name: Name)
    requires NamesOk(s)
    ensures NamesOk(Open(s, name)) && Grown(s, Open(s, name))
    ensures Holds(Open(s, name).caches, IdOf(s, name), name)
    ensures forall c :: c in Open(s, name).caches ==> c in s.caches || c.entries == map[]
    ensures Open(s, name).fetched == s.fetched
    ensures Open(s, name).tasks == s.tasks && Open(s, name).served == s.served
  {
  }

  /** A task that runs is in order. */
  lemma RunningIsOk(origin: string, workers: set<Worker>, s: State, t: Task)
    requires Inv(origin, workers, s) && t in s.tasks
    ensures TaskOk(origin, workers, s.fetched, s.caches, t)
  {
    hide TaskOk, NamesOk, CachesOk, AllServedOk;
  }

  lemma EntryIsOk(origin: string, workers: set<Worker>, s: State, id: nat, key: string)
    requires Inv(origin, workers, s) && id < |s.caches| && key in s.caches[id].entries
    ensures EntryOk(origin, workers, s.fetched, s.caches[id].name, key, s.caches[id].entries[key])
  {
    hide EntryOk, TasksOk, AllServedOk, NamesOk;
    assert CacheOk(origin, workers, s.fetched, s.caches[id]);
  }

  // ---- Step by step ----

  lemma ShellSurvivesTheWrite(r: Response)
    requires GoodShell(r) && Stored(r).Some?
    ensures GoodShell(Stored(r).value)
  {
  }

  lemma ShellPutIsOk(origin: string, workers: set<Worker>, fetched: seq<Fetch>,
                     caches: seq<Cache>, id: nat, w: Worker, r: Response)
    requires w in workers && GoodShell(r) && Holds(caches, id, ShellCache(w.build))
    ensures PutOk(origin, workers, fetched, caches, id, ShellKey(origin, w), r)
  {
    if Stored(r).Some? {
      ShellSurvivesTheWrite(r);
      assert IsShellKey(origin, workers, ShellKey(origin, w));
    }
  }

  lemma OpeningKeeps(origin: string, workers: set<Worker>, s: State, t: Task, i: Input)
    requires Inv(origin, workers, s) && Enabled(workers, s, Step(t, i))
    requires t.Precaching? || t.Looking? || t.Navigating?
    ensures Inv(origin, workers, Next(origin, s, t, i))
  {
    hide Inv, LookOk, GoodShell, PutOk, ShellKey, Open, IdOf, Becomes, Holds;
    var name := if t.Looking? then t.name else ShellCache(t.w.build);
    RunningIsOk(origin, workers, s, t);
    OpenKeeps(origin, workers, s, name);
    var s1, id := Open(s, name), IdOf(s, name);
    var more :=
      if t.Looking? then Opened(t.w, t.url, name, id)
      else if t.Navigating? then Asking(t.w, id)
      else Storing(id, ShellKey(origin, t.w), t.response);
    if t.Precaching? {
      ShellPutIsOk(origin, workers, s1.fetched, s1.caches, id, t.w, t.response);
    }
    BecomesKeeps(origin, workers, s1, t, multiset{more});
  }

  lemma InstallStepKeeps(origin: string, workers: set<Worker>, s: State, t: Task, i: Input)
    requires Inv(origin, workers, s) && Enabled(workers, s, Step(t, i)) && t.Installing?
    ensures Inv(origin, workers, Next(origin, s, t, i))
  {
    hide Inv, GoodShell, Becomes;
    RunningIsOk(origin, workers, s, t);
    var a := i.tries[0];
    BecomesKeeps(origin, workers, s, t,
      if a.Answered? && GoodShell(a.response) then multiset{Precaching(t.w, a.response)} else multiset{});
  }

  lemma UnnamingKeeps(origin: string, workers: set<Worker>, s: State, victim: Name)
    requires Inv(origin, workers, s)
    ensures Inv(origin, workers, s.(named := s.named - {victim}))
  {
    hide CacheOk, TaskOk, ServedOk;
  }

  lemma PurgeStepKeeps(origin: string, workers: set<Worker>, s: State, t: Task, i: Input)
    requires Inv(origin, workers, s) && Enabled(workers, s, Step(t, i))
    requires t.Activating? || t.Purging?
    ensures Inv(origin, workers, Next(origin, s, t, i))
  {
    hide Inv, Becomes, Keep;
    RunningIsOk(origin, workers, s, t);
    if t.Activating? {
      BecomesKeeps(origin, workers, s, t, multiset{Purging(t.w, s.named.Keys - Keep(t.w))});
    } else if t.stale == {} {
      BecomesKeeps(origin, workers, s, t, multiset{});
    } else {
      UnnamingKeeps(origin, workers, s, i.victim);
      BecomesKeeps(origin, workers, s.(named := s.named - {i.victim}), t,
        multiset{Purging(t.w, t.stale - {i.victim})});
    }
  }

  lemma LookStepKeeps(origin: string, workers: set<Worker>, s: State, t: Task, i: Input)
    requires Inv(origin, workers, s) && Enabled(workers, s, Step(t, i)) && t.Opened?
    ensures Inv(origin, workers, Next(origin, s, t, i))
  {
    hide Inv, EntryOk, IsBundleUrl, Becomes, Serve;
    RunningIsOk(origin, workers, s, t);
    var found := EntriesOf(s, t.id);
    if t.url in found {
      EntryIsOk(origin, workers, s, t.id, t.url);
      var v := Served(t.name, t.url, false, true, Reply(found[t.url]));
      ServeKeeps(origin, workers, s, v);
      BecomesKeeps(origin, workers, Serve(s, v), t, multiset{});
    } else {
      BecomesKeeps(origin, workers, s, t, multiset{Missed(t.w, t.url, t.name, t.id)});
    }
  }

  lemma FetchedPutIsOk(origin: string, workers: set<Worker>, s: State, t: Task, i: Input)
    requires t.Missed? && LookOk(origin, workers, t.w, t.url, t.name) && Holds(s.caches, t.id, t.name)
    requires |i.tries| == WHOLE_BODY_ATTEMPTS && IsCacheable(t.name, Miss(t.name, i.tries))
    ensures PutOk(origin, workers, s.fetched + [Fetch(t.name, t.url, i.tries)], s.caches, t.id, t.url,
              Miss(t.name, i.tries).response)
  {
    hide IsBundleUrl, GoodBundle, Ok, Miss, IsShellKey, GoodShell, Stored;
    var f := Fetch(t.name, t.url, i.tries);
    var fetched := s.fetched + [f];
    assert f in fetched;
    var r := Miss(t.name, i.tries).response;
    if Stored(r).Some? {
      assert IsSourceOf(f, t.name, t.url, Stored(r).value);
      assert Genuine(fetched, t.name, t.url, Stored(r).value);
      if t.name.ShellCache? {
        assert IsBundleKey(origin, workers, t.url);
      }
    }
  }

  lemma RecordingKeeps(origin: string, workers: set<Worker>, s: State, f: Fetch)
    requires Inv(origin, workers, s)
    ensures Inv(origin, workers, s.(fetched := s.fetched + [f]))
  {
    hide CachesOk, TasksOk, AllServedOk, Holds;
    GrowthKeeps(origin, workers, s, s.(fetched := s.fetched + [f]));
  }

  lemma MissStepKeeps(origin: string, workers: set<Worker>, s: State, t: Task, i: Input)
    requires Inv(origin, workers, s) && Enabled(workers, s, Step(t, i)) && t.Missed?
    ensures Inv(origin, workers, Next(origin, s, t, i))
  {
    hide Inv, LookOk, PutOk, Miss, GoodBundle, Ok, Becomes, Holds, EntryOk;
    RunningIsOk(origin, workers, s, t);
    var a, f := Miss(t.name, i.tries), Fetch(t.name, t.url, i.tries);
    var v := Served(t.name, t.url, false, false, a);
    var s1 := s.(fetched := s.fetched + [f]);
    RecordingKeeps(origin, workers, s, f);
    ServeKeeps(origin, workers, s1, v);
    if IsCacheable(t.name, a) {
      FetchedPutIsOk(origin, workers, s, t, i);
      BecomesKeeps(origin, workers, Serve(s1, v), t, multiset{Storing(t.id, t.url, a.response)});
    } else {
      BecomesKeeps(origin, workers, Serve(s1, v), t, multiset{});
    }
  }

  lemma StoreItMeansGoodShell(r: Response)
    requires ShellPlan(r) == StoreIt
    ensures GoodShell(r)
  {
  }

  lemma ShellStepKeeps(origin: string, workers: set<Worker>, s: State, t: Task, i: Input)
    requires Inv(origin, workers, s) && Enabled(workers, s, Step(t, i)) && t.Asking?
    ensures Inv(origin, workers, Next(origin, s, t, i))
  {
    hide Inv, PutOk, Retry, ShellPlan, ShellKey, Becomes, Holds, EntryOk, GoodShell;
    RunningIsOk(origin, workers, s, t);
    var a := Retry(i.tries);
    var name, key := ShellCache(t.w.build), ShellKey(origin, t.w);
    if a.Failure? || ShellPlan(a.response) == FallBack {
      BecomesKeeps(origin, workers, s, t, multiset{FallingBack(t.w, t.id, a)});
    } else {
      var plan := ShellPlan(a.response);
      var v := Served(name, key, true, false, if plan == SendOn then RedirectTo(a.response.url) else a);
      ServeKeeps(origin, workers, s, v);
      if plan == StoreIt {
        StoreItMeansGoodShell(a.response);
        ShellPutIsOk(origin, workers, s.fetched, s.caches, t.id, t.w, a.response);
        BecomesKeeps(origin, workers, Serve(s, v), t, multiset{Storing(t.id, key, a.response)});
      } else {
        BecomesKeeps(origin, workers, Serve(s, v), t, multiset{});
      }
    }
  }

  /** When no shell key is a bundle URL, what a shell cache holds under one is a shell. */
  lemma ShellKeyHoldsShell(origin: string, workers: set<Worker>, fetched: seq<Fetch>,
                           build: string, w: Worker, r: Response)
    requires Apart(origin, workers) && w in workers
    requires EntryOk(origin, workers, fetched, ShellCache(build), ShellKey(origin, w), r)
    ensures GoodShell(r)
  {
    hide GoodShell, Genuine, ShellKey, IsBundleUrl, IsShellKey;
  }

  lemma FallStepKeeps(origin: string, workers: set<Worker>, s: State, t: Task, i: Input)
    requires Apart(origin, workers)
    requires Inv(origin, workers, s) && Enabled(workers, s, Step(t, i)) && t.FallingBack?
    ensures Inv(origin, workers, Next(origin, s, t, i))
  {
    hide Inv, EntryOk, GoodShell, ShellKey, Apart, Becomes;
    RunningIsOk(origin, workers, s, t);
    var name, key := ShellCache(t.w.build), ShellKey(origin, t.w);
    var found := EntriesOf(s, t.id);
    var v :=
      if key in found then Served(name, key, true, true, Reply(found[key]))
      else Served(name, key, true, false, t.answer);
    if key in found {
      EntryIsOk(origin, workers, s, t.id, key);
      ShellKeyHoldsShell(origin, workers, s.fetched, t.w.build, t.w, found[key]);
    }
    ServeKeeps(origin, workers, s, v);
    BecomesKeeps(origin, workers, Serve(s, v), t, multiset{});
  }

  lemma WriteKeeps(origin: string, workers: set<Worker>, s: State, id: nat, key: string, r: Response)
    requires Inv(origin, workers, s) && id < |s.caches|
    requires EntryOk(origin, workers, s.fetched, s.caches[id].name, key, r)
    ensures Inv(origin, workers, Write(s, id, key, r))
  {
    hide EntryOk, TaskOk, ServedOk;
    var c := s.caches[id];
    var c' := c.(entries := c.entries[key := r]);
    var s' := Write(s, id, key, r);
    assert CacheOk(origin, workers, s.fetched, c);
    assert CacheOk(origin, workers, s.fetched, c');
    assert forall d :: d in s'.caches ==> d in s.caches || d == c';
    forall t | t in s'.tasks ensures TaskOk(origin, workers, s'.fetched, s'.caches, t) {
      TaskOkGrows(origin, workers, s, s', t);
    }
  }

  lemma StoreStepKeeps(origin: string, workers: set<Worker>, s: State, t: Task, i: Input)
    requires Inv(origin, workers, s) && Enabled(workers, s, Step(t, i)) && t.Storing?
    ensures Inv(origin, workers, Next(origin, s, t, i))
  {
    hide Inv, EntryOk, Stored, Becomes, Write;
    RunningIsOk(origin, workers, s, t);
    if i.writes && Stored(t.response).Some? {
      var r := Stored(t.response).value;
      WriteKeeps(origin, workers, s, t.id, t.key, r);
      BecomesKeeps(origin, workers, Write(s, t.id, t.key, r), t, multiset{});
    } else {
      BecomesKeeps(origin, workers, s, t, multiset{});
    }
  }

  lemma StartingKeeps(origin: string, workers: set<Worker>, s: State, more: multiset<Task>)
    requires Inv(origin, workers, s)
    requires forall u :: u in more ==> TaskOk(origin, workers, s.fetched, s.caches, u)
    ensures Inv(origin, workers, s.(tasks := s.tasks + more))
  {
    hide TaskOk, CacheOk, ServedOk;
  }

  lemma EventKeeps(origin: string, workers: set<Worker>, s: State, a: Action)
    requires Inv(origin, workers, s) && Enabled(workers, s, a) && !a.Step?
    ensures Inv(origin, workers, Apply(origin, workers, s, a))
  {
    hide Inv, GoodShell, PutOk, IsBundleUrl, RouteOf, IsBuilt, Holds;
    if a.Ask? && RouteOf(origin, a.w, a.request) == Bundle {
      BundleRouteIsBundleUrl(origin, a.w, a.request);
    }
    StartingKeeps(origin, workers, s, Started(origin, a));
  }

  lemma StepKeepsInv(origin: string, workers: set<Worker>, s: State, a: Action)
    requires Apart(origin, workers) && Inv(origin, workers, s) && Enabled(workers, s, a)
    ensures Inv(origin, workers, Apply(origin, workers, s, a))
  {
    hide Inv, Next, Apart, Started;
    if !a.Step? {
      EventKeeps(origin, workers, s, a);
    } else {
      var t, i := a.task, a.input;
      match t {
        case Installing(_) => InstallStepKeeps(origin, workers, s, t, i);
        case Precaching(_, _) => OpeningKeeps(origin, workers, s, t, i);
        case Activating(_) => PurgeStepKeeps(origin, workers, s, t, i);
        case Purging(_, _) => PurgeStepKeeps(origin, workers, s, t, i);
        case Looking(_, _, _) => OpeningKeeps(origin, workers, s, t, i);
        case Opened(_, _, _, _) => LookStepKeeps(origin, workers, s, t, i);
        case Missed(_, _, _, _) => MissStepKeeps(origin, workers, s, t, i);
        case Navigating(_) => OpeningKeeps(origin, workers, s, t, i);
        case Asking(_, _) => ShellStepKeeps(origin, workers, s, t, i);
        case FallingBack(_, _, _) => FallStepKeeps(origin, workers, s, t, i);
        case Storing(_, _, _) => StoreStepKeeps(origin, workers, s, t, i);
      }
    }
  }

  lemma InitialIsOk(origin: string, workers: set<Worker>, s: State)
    requires Initial(s)
    ensures Inv(origin, workers, s)
  {
  }

  lemma {:induction false} RunsKeepInv(origin: string, workers: set<Worker>, s: State, run: seq<Action>)
    requires Apart(origin, workers) && Inv(origin, workers, s) && CanRun(origin, workers, s, run)
    ensures Inv(origin, workers, After(origin, workers, s, run))
    decreases |run|
  {
    hide Inv, Apply, Enabled, Apart;
    if run != [] {
      StepKeepsInv(origin, workers, s, run[0]);
      RunsKeepInv(origin, workers, Apply(origin, workers, s, run[0]), run[1..]);
    }
  }

  // ---- The promises ----

  lemma GenuineBundleIsGood(fetched: seq<Fetch>, build: string, key: string, r: Response)
    requires Genuine(fetched, ShellCache(build), key, r)
    ensures GoodBundle(r)
    ensures exists f :: f in fetched && f.url == key && |f.tries| == WHOLE_BODY_ATTEMPTS && CameFrom(f.tries, r)
  {
    hide IsHtml, CameFrom;
    var f :| f in fetched && IsSourceOf(f, ShellCache(build), key, r);
    GoodMeansComplete(f.tries);
    WholeHasNoStream(f.tries);
  }

  lemma {:induction false} WholeHasNoStream(tries: seq<Attempt>)
    requires Ok(FirstWhole(tries))
    ensures !FirstWhole(tries).body.Stream?
    decreases |tries|
  {
    if Whole(tries[0]) == None {
      WholeHasNoStream(tries[1..]);
    }
  }

  /** In every run of any number of workers, whatever the network does: a shell key holds
      an unredirected success that is no pairing screen; a bundle URL holds a success
      that is not HTML and is, whole, one of the at most three answers the server gave for it;
      a blob URL holds a success the server gave for it. */
  lemma EveryRunIsSafe(origin: string, workers: set<Worker>, s0: State, run: seq<Action>,
                       c: Cache, key: string)
    requires Apart(origin, workers) && Initial(s0) && CanRun(origin, workers, s0, run)
    requires c in After(origin, workers, s0, run).caches && key in c.entries
    ensures c.name.ShellCache? && IsShellKey(origin, workers, key) ==> GoodShell(c.entries[key])
    ensures c.name.ShellCache? && IsBundleKey(origin, workers, key) ==>
      GoodBundle(c.entries[key])
      && exists f :: f in After(origin, workers, s0, run).fetched && f.url == key
           && |f.tries| == WHOLE_BODY_ATTEMPTS && CameFrom(f.tries, c.entries[key])
    ensures c.name.ShellCache? ==>
      IsShellKey(origin, workers, key) || IsBundleKey(origin, workers, key)
    ensures c.name == BlobCache ==>
      Genuine(After(origin, workers, s0, run).fetched, c.name, key, c.entries[key])
  {
    hide GoodShell, GoodBundle, Genuine, CameFrom, IsBundleUrl, ShellKey, Initial, Enabled, Apply, After, CanRun;
    InitialIsOk(origin, workers, s0);
    RunsKeepInv(origin, workers, s0, run);
    var s := After(origin, workers, s0, run);
    assert CacheOk(origin, workers, s.fetched, c);
    var r := c.entries[key];
    assert EntryOk(origin, workers, s.fetched, c.name, key, r);
    if c.name.ShellCache? && Genuine(s.fetched, c.name, key, r) {
      GenuineBundleIsGood(s.fetched, c.name.build, key, r);
    }
  }

  /** And every shell or bundle that a page was given from a cache was one. */
  lemma WhatIsServedIsFit(origin: string, workers: set<Worker>, s0: State, run: seq<Action>, v: Served)
    requires Apart(origin, workers) && Initial(s0) && CanRun(origin, workers, s0, run)
    requires v in After(origin, workers, s0, run).served && v.fromCache
    ensures v.answer.Reply? && Ok(v.answer.response)
    ensures v.isShell ==> v.answer.Reply? && GoodShell(v.answer.response)
  {
    hide Genuine, CameFrom, IsBundleUrl, ShellKey, Initial, Enabled, Apply, After, CanRun, IsHtml, IsBundleKey;
    InitialIsOk(origin, workers, s0);
    RunsKeepInv(origin, workers, s0, run);
    var s := After(origin, workers, s0, run);
    assert ServedOk(origin, workers, s.fetched, v);
    if Genuine(s.fetched, v.name, v.key, v.answer.response) {
      GenuineIsOk(s.fetched, v.name, v.key, v.answer.response);
    }
  }

  lemma GenuineIsOk(fetched: seq<Fetch>, name: Name, key: string, r: Response)
    requires Genuine(fetched, name, key, r)
    ensures Ok(r)
  {
    hide IsHtml, Miss;
  }

  /** The separation of keys is needed: when the shell key of w is a bundle URL of v, three
      steps put an HTML document under that bundle URL. */
  lemma ClashPutsHtmlUnderABundle(origin: string, v: Worker, w: Worker, html: Response)
    requires IsBundleUrl(origin, v, ShellKey(origin, w)) && IsBuilt(w)
    requires GoodShell(html) && IsHtml(html) && Stored(html) == Some(html)
    ensures var s0 := State([], map[], multiset{}, [], []);
      exists run, c :: Initial(s0) && CanRun(origin, {v, w}, s0, run)
        && c in After(origin, {v, w}, s0, run).caches && c.name.ShellCache?
        && ShellKey(origin, w) in c.entries && IsHtml(c.entries[ShellKey(origin, w)])
  {
    hide IsHtml, GoodShell, Stored, IsBundleUrl, IsBuilt, Initial;
    var s0 := State([], map[], multiset{}, [], []);
    InitialIsEmpty();
    var key, name := ShellKey(origin, w), ShellCache(w.build);
    var i := Input([Answered(html), Rejected, Rejected], BlobCache, true);
    var a0, a1 := Install(w), Step(Installing(w), i);
    var a2, a3 := Step(Precaching(w, html), i), Step(Storing(0, key, html), i);
    var ws := {v, w};
    var s1 := Apply(origin, ws, s0, a0);
    assert s1.tasks == multiset{Installing(w)};
    var s2 := Apply(origin, ws, s1, a1);
    assert s2.tasks == multiset{Precaching(w, html)};
    var s3 := Apply(origin, ws, s2, a2);
    assert s3.tasks == multiset{Storing(0, key, html)} && s3.caches == [Cache(name, map[])];
    var s4 := Apply(origin, ws, s3, a3);
    assert s4.caches[0] == Cache(name, map[key := html]);
    RunOfFour(origin, ws, s0, a0, a1, a2, a3);
    assert s4.caches[0] in After(origin, ws, s0, [a0, a1, a2, a3]).caches;
  }

  lemma InitialIsEmpty()
    ensures Initial(State([], map[], multiset{}, [], []))
  {
  }

  lemma RunOfFour(origin: string, ws: set<Worker>, s0: State, a0: Action, a1: Action, a2: Action, a3: Action)
    requires Enabled(ws, s0, a0)
    requires Enabled(ws, Apply(origin, ws, s0, a0), a1)
    requires Enabled(ws, Apply(origin, ws, Apply(origin, ws, s0, a0), a1), a2)
    requires Enabled(ws, Apply(origin, ws, Apply(origin, ws, Apply(origin, ws, s0, a0), a1), a2), a3)
    ensures CanRun(origin, ws, s0, [a0, a1, a2, a3])
    ensures After(origin, ws, s0, [a0, a1, a2, a3])
         == Apply(origin, ws, Apply(origin, ws, Apply(origin, ws, Apply(origin, ws, s0, a0), a1), a2), a3)
  {
    hide Enabled, Apply;
    var s1 := Apply(origin, ws, s0, a0);
    var s2 := Apply(origin, ws, s1, a1);
    var s3 := Apply(origin, ws, s2, a2);
    var s4 := Apply(origin, ws, s3, a3);
    assert [a0, a1, a2, a3][1..] == [a1, a2, a3];
    assert [a1, a2, a3][1..] == [a2, a3];
    assert [a2, a3][1..] == [a3];
    assert [a3][1..] == [];
    assert CanRun(origin, ws, s4, []) && After(origin, ws, s4, []) == s4;
    assert CanRun(origin, ws, s3, [a3]) && After(origin, ws, s3, [a3]) == s4;
    assert CanRun(origin, ws, s2, [a2, a3]) && After(origin, ws, s2, [a2, a3]) == s4;
    assert CanRun(origin, ws, s1, [a1, a2, a3]) && After(origin, ws, s1, [a1, a2, a3]) == s4;
  }

  // ---- Purging the caches of other builds ----

  /** The names a run brings back: at some step a cache of that name was opened that was
      not there before the step. */
  function Reopened(origin: string, workers: set<Worker>, s: State, run: seq<Action>): set<Name>
    requires CanRun(origin, workers, s, run)
    decreases |run|
  {
    if run == [] then {}
    else
      var next := Apply(origin, workers, s, run[0]);
      (next.named.Keys - s.named.Keys) + Reopened(origin, workers, next, run[1..])
  }

  /** Whatever is neither kept nor in `more` is still to be deleted by a running purge. */
  ghost predicate Purged(s: State, w: Worker, more: set<Name>) {
    s.named.Keys <= Keep(w) + more || exists t :: t in s.tasks && IsPurgeOf(t, w, s.named.Keys, more)
  }

  predicate IsPurgeOf(t: Task, w: Worker, names: set<Name>, more: set<Name>) {
    t.Purging? && t.w.build == w.build && names <= Keep(w) + more + t.stale
  }

  lemma PurgeStarts(origin: string, workers: set<Worker>, s: State, w: Worker, i: Input)
    requires Enabled(workers, s, Step(Activating(w), i))
    ensures Purged(Next(origin, s, Activating(w), i), w, {})
  {
    var s' := Next(origin, s, Activating(w), i);
    var t := Purging(w, s.named.Keys - Keep(w));
    assert t in s'.tasks && IsPurgeOf(t, w, s'.named.Keys, {});
  }

  predicate GoesOn(t: Task, u: Task) {
    u.Storing? || (!u.Looking? && !t.Storing? && u.w == t.w)
  }

  /** The tasks a step leaves: the other ones, and the same handler further on, or a write. */
  ghost predicate GoesOnAs(s: State, t: Task, s': State) {
    (forall u :: u in s'.tasks ==> u in s.tasks || GoesOn(t, u))
    && (forall u :: u in s.tasks && u != t ==> u in s'.tasks)
  }

  lemma BecomesGoesOn(s: State, t: Task, u: Task, s1: State)
    requires s1.tasks == s.tasks && GoesOn(t, u)
    ensures GoesOnAs(s, t, Becomes(s1, t, multiset{u}))
  {
  }

  lemma BecomesNothing(s: State, t: Task, s1: State)
    requires s1.tasks == s.tasks
    ensures GoesOnAs(s, t, Becomes(s1, t, multiset{}))
  {
  }

  lemma StepGoesOn(origin: string, workers: set<Worker>, s: State, t: Task, i: Input)
    requires Enabled(workers, s, Step(t, i))
    ensures GoesOnAs(s, t, Next(origin, s, t, i))
  {
    hide Retry, ShellPlan, Miss, GoodBundle, Ok, Stored, GoodShell, ShellKey, EntriesOf, IdOf, Keep, Becomes, GoesOnAs;
    forall s1: State, u: Task | s1.tasks == s.tasks && GoesOn(t, u)
      ensures GoesOnAs(s, t, Becomes(s1, t, multiset{u}))
    {
      BecomesGoesOn(s, t, u, s1);
    }
    forall s1: State | s1.tasks == s.tasks
      ensures GoesOnAs(s, t, Becomes(s1, t, multiset{}))
    {
      BecomesNothing(s, t, s1);
    }
  }

  lemma OthersStay(origin: string, workers: set<Worker>, s: State, a: Action, t: Task)
    requires Enabled(workers, s, a) && t in s.tasks && (a.Step? ==> a.task != t)
    ensures t in Apply(origin, workers, s, a).tasks
  {
    hide Next, Started;
    if a.Step? {
      StepGoesOn(origin, workers, s, a.task, a.input);
    }
  }

  /** A step keeps a store purged but for what it brings back itself. */
  lemma StepKeepsPurged(origin: string, workers: set<Worker>, s: State, a: Action, w: Worker, more: set<Name>)
    requires Purged(s, w, more) && Enabled(workers, s, a)
    ensures
      var s' := Apply(origin, workers, s, a);
      Purged(s', w, more + (s'.named.Keys - s.named.Keys))
  {
    hide Next, Started;
    var s' := Apply(origin, workers, s, a);
    var brought := s'.named.Keys - s.named.Keys;
    if !(s.named.Keys <= Keep(w) + more) {
      var t :| t in s.tasks && IsPurgeOf(t, w, s.named.Keys, more);
      if a.Step? && a.task == t {
        PurgeGoesOn(origin, s, t, a.input, w, more);
      } else {
        OthersStay(origin, workers, s, a, t);
        assert IsPurgeOf(t, w, s'.named.Keys, more + brought);
      }
    }
  }

  lemma PurgeGoesOn(origin: string, s: State, t: Task, i: Input, w: Worker, more: set<Name>)
    requires t in s.tasks && IsPurgeOf(t, w, s.named.Keys, more)
    requires |i.tries| == WHOLE_BODY_ATTEMPTS && (t.stale != {} ==> i.victim in t.stale)
    ensures
      var s' := Next(origin, s, t, i);
      s'.named.Keys <= s.named.Keys && Purged(s', w, more)
  {
    var s' := Next(origin, s, t, i);
    if t.stale != {} {
      var u := Purging(t.w, t.stale - {i.victim});
      assert u in s'.tasks;
      assert s'.named.Keys <= Keep(w) + more + u.stale;
      assert IsPurgeOf(u, w, s'.named.Keys, more);
    }
  }

  lemma {:induction false} RunKeepsPurged(origin: string, workers: set<Worker>, s: State, run: seq<Action>,
                                          w: Worker, more: set<Name>)
    requires Purged(s, w, more) && CanRun(origin, workers, s, run)
    ensures Purged(After(origin, workers, s, run), w, more + Reopened(origin, workers, s, run))
    decreases |run|
  {
    hide Apply, Enabled, Purged;
    if run == [] {
      assert more + {} == more;
    } else {
      var next := Apply(origin, workers, s, run[0]);
      var brought := next.named.Keys - s.named.Keys;
      StepKeepsPurged(origin, workers, s, run[0], w, more);
      RunKeepsPurged(origin, workers, next, run[1..], w, more + brought);
      assert more + brought + Reopened(origin, workers, next, run[1..])
          == more + (brought + Reopened(origin, workers, next, run[1..]));
    }
  }

  /** Every run after a worker has listed the caches, whoever else is at work and of
      whatever build: once no purge is running, a cache that is none of the worker's two
      was opened anew since the listing. */
  lemma OnlyKeptAndReopenedRemain(origin: string, workers: set<Worker>, s: State, w: Worker, i: Input,
                                  run: seq<Action>)
    requires Enabled(workers, s, Step(Activating(w), i))
    requires CanRun(origin, workers, Next(origin, s, Activating(w), i), run)
    ensures
      var listed := Next(origin, s, Activating(w), i);
      var end := After(origin, workers, listed, run);
      && Purged(end, w, Reopened(origin, workers, listed, run))
      && ((forall t :: t in end.tasks ==> !t.Purging?) ==>
            end.named.Keys <= Keep(w) + Reopened(origin, workers, listed, run))
  {
    hide Next, After, Reopened, CanRun;
    PurgeStarts(origin, workers, s, w, i);
    var listed := Next(origin, s, Activating(w), i);
    RunKeepsPurged(origin, workers, listed, run, w, {});
    assert {} + Reopened(origin, workers, listed, run) == Reopened(origin, workers, listed, run);
  }

  /** What is brought back is the blob cache, or the shell cache of a worker's build. */
  lemma StepOpensOwn(origin: string, workers: set<Worker>, s: State, a: Action, n: Name)
    requires Inv(origin, workers, s) && Enabled(workers, s, a)
    requires n in Apply(origin, workers, s, a).named.Keys - s.named.Keys
    ensures n == BlobCache || exists v :: v in workers && n == ShellCache(v.build)
  {
    hide Inv, Retry, ShellPlan, Miss, IsCacheable, Stored, GoodShell, RouteOf, ShellKey, IsBundleUrl, PutOk, Holds;
    if a.Step? {
      RunningIsOk(origin, workers, s, a.task);
    }
  }

  lemma {:induction false} ReopenedAreOwn(origin: string, workers: set<Worker>, s: State, run: seq<Action>, n: Name)
    requires Apart(origin, workers) && Inv(origin, workers, s) && CanRun(origin, workers, s, run)
    requires n in Reopened(origin, workers, s, run)
    ensures n == BlobCache || exists v :: v in workers && n == ShellCache(v.build)
    decreases |run|
  {
    hide Apply, Enabled, Inv, Apart;
    var next := Apply(origin, workers, s, run[0]);
    if n in next.named.Keys - s.named.Keys {
      StepOpensOwn(origin, workers, s, run[0], n);
    } else {
      StepKeepsInv(origin, workers, s, run[0]);
      ReopenedAreOwn(origin, workers, next, run[1..], n);
    }
  }

  /** So when all workers are of one build, nothing but its two caches remains. */
  lemma OneBuildKeepsTwoCaches(origin: string, workers: set<Worker>, s: State, w: Worker, i: Input, run: seq<Action>)
    requires Apart(origin, workers) && Inv(origin, workers, s) && forall v :: v in workers ==> v.build == w.build
    requires Enabled(workers, s, Step(Activating(w), i))
    requires CanRun(origin, workers, Next(origin, s, Activating(w), i), run)
    ensures
      var end := After(origin, workers, Next(origin, s, Activating(w), i), run);
      (forall t :: t in end.tasks ==> !t.Purging?) ==> end.named.Keys <= Keep(w)
  {
    hide Next, After, Reopened, CanRun, Inv, Apart, Purged;
    var a := Step(Activating(w), i);
    var listed := Next(origin, s, Activating(w), i);
    ListingIsAStep(origin, workers, s, w, i);
    StepKeepsInv(origin, workers, s, a);
    OnlyKeptAndReopenedRemain(origin, workers, s, w, i, run);
    forall n | n in Reopened(origin, workers, listed, run) ensures n in Keep(w) {
      ReopenedAreOwn(origin, workers, listed, run, n);
    }
  }

  lemma ListingIsAStep(origin: string, workers: set<Worker>, s: State, w: Worker, i: Input)
    requires Enabled(workers, s, Step(Activating(w), i))
    ensures Apply(origin, workers, s, Step(Activating(w), i)) == Next(origin, s, Activating(w), i)
  {
    hide Next;
  }

  /** A store with no caches but those of that list, and the tasks. */
  function Plain(caches: seq<Cache>, named: map<Name, nat>, tasks: multiset<Task>): State {
    State(caches, named, tasks, [], [])
  }

  /** The old worker is asked to navigate, and the new one activates and lists no cache. */
  function OldRun(origin: string, v: Worker, w: Worker, i: Input): seq<Action> {
    [Ask(v, Request(Get(), ShellKey(origin, v), true, false)), Activate(w), Step(Activating(w), i),
     Step(Purging(w, {}), i), Step(Navigating(v), i)]
  }

  lemma OldIsAsked(origin: string, v: Worker, w: Worker)
    requires IsScope(v.path) && IsBuilt(v)
    ensures
      var a := Ask(v, Request(Get(), ShellKey(origin, v), true, false));
      Enabled({v, w}, Plain([], map[], multiset{}), a)
      && Apply(origin, {v, w}, Plain([], map[], multiset{}), a) == Plain([], map[], multiset{Navigating(v)})
  {
    hide RouteOf, ShellKey, IsBuilt;
    ShellRequest(origin, v);
  }

  lemma NewActivates(origin: string, v: Worker, w: Worker)
    ensures
      var s := Plain([], map[], multiset{Navigating(v)});
      Enabled({v, w}, s, Activate(w))
      && Apply(origin, {v, w}, s, Activate(w)) == Plain([], map[], multiset{Navigating(v), Activating(w)})
  {
  }

  lemma NewListsNothing(origin: string, v: Worker, w: Worker, i: Input)
    requires |i.tries| == WHOLE_BODY_ATTEMPTS
    ensures
      var s, a := Plain([], map[], multiset{Navigating(v), Activating(w)}), Step(Activating(w), i);
      Enabled({v, w}, s, a)
      && Apply(origin, {v, w}, s, a) == Plain([], map[], multiset{Navigating(v), Purging(w, {})})
  {
    var s := Plain([], map[], multiset{Navigating(v), Activating(w)});
    assert s.named.Keys - Keep(w) == {};
  }

  lemma NewIsDone(origin: string, v: Worker, w: Worker, i: Input)
    requires |i.tries| == WHOLE_BODY_ATTEMPTS
    ensures
      var s, a := Plain([], map[], multiset{Navigating(v), Purging(w, {})}), Step(Purging(w, {}), i);
      Enabled({v, w}, s, a) && Apply(origin, {v, w}, s, a) == Plain([], map[], multiset{Navigating(v)})
  {
  }

  lemma OldOpens(origin: string, v: Worker, w: Worker, i: Input)
    requires |i.tries| == WHOLE_BODY_ATTEMPTS
    ensures
      var (s, a, name) := (Plain([], map[], multiset{Navigating(v)}), Step(Navigating(v), i), ShellCache(v.build));
      Enabled({v, w}, s, a)
      && Apply(origin, {v, w}, s, a) == Plain([Cache(name, map[])], map[name := 0], multiset{Asking(v, 0)})
  {
  }

  /** With two builds it does not: a navigation that the old worker answers while the new
      one activates opens the old shell cache again, and no purge is left to delete it. */
  lemma AnOldBuildLeavesItsCache(origin: string, v: Worker, w: Worker, i: Input)
    requires IsScope(v.path) && IsBuilt(v) && v.build != w.build && |i.tries| == WHOLE_BODY_ATTEMPTS
    ensures
      var s0, run := Plain([], map[], multiset{}), OldRun(origin, v, w, i);
      && Initial(s0) && CanRun(origin, {v, w}, s0, run)
      && var end := After(origin, {v, w}, s0, run);
         (forall t :: t in end.tasks ==> !t.Purging?) && ShellCache(v.build) in end.named.Keys - Keep(w)
  {
    var s0, run := Plain([], map[], multiset{}), OldRun(origin, v, w, i);
    InitialIsEmpty();
    hide RouteOf, IsBuilt, Initial, Apply, Enabled, Next, IsScope;
    OldIsAsked(origin, v, w);
    NewActivates(origin, v, w);
    NewListsNothing(origin, v, w, i);
    NewIsDone(origin, v, w, i);
    OldOpens(origin, v, w, i);
    var s1 := Plain([], map[], multiset{Navigating(v)});
    RunOfFour(origin, {v, w}, s1, run[1], run[2], run[3], run[4]);
    assert run[1..] == [run[1], run[2], run[3], run[4]];
  }

  /** A navigation to the root of its scope is the worker's to answer. */
  lemma ShellRequest(origin: string, v: Worker)
    requires IsScope(v.path) && IsBuilt(v)
    ensures RouteOf(origin, v, Request(Get(), ShellKey(origin, v), true, false)) == Shell
  {
    ShellKeyRelative(origin, v, v);
    assert ScopeRelative(v.path, v.path) == "/";
    PrefixesStartWithSlash();
  }
}
