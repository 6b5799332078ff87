/** The ELF closure of scripts/lib/stage_runtime_linux.py over a file system held as
    maps. A path is its list of components. */
module BundleFiles {
  import opened Wrappers

  type Path = seq<string>

  /** What the tool reads of a file: its ELF identity when it is an ELF, the names it
      needs, whether it asks for too new a glibc, and its library search path. */
  datatype ElfFile = ElfFile(identity: Option<nat>, needed: seq<string>, tooNew: bool, runpath: Option<Path>)

  /** Regular files, directories, and symbolic links with what they resolve to. */
  datatype Files = Files(regular: map<Path, ElfFile>, dirs: set<Path>, links: map<Path, Path>)

  const GLIBC := {
    "libc.so.6", "libm.so.6", "libpthread.so.0", "libdl.so.2", "librt.so.1", "libresolv.so.2", "libutil.so.1",
    "libanl.so.1", "libmvec.so.1", "ld-linux-x86-64.so.2", "ld-linux-aarch64.so.1"
  }

  predicate IsGlibc(name: string) {
    name in GLIBC
  }

  /** Is `path` the root or below it? */
  predicate Within(root: Path, path: Path) {
    root <= path
  }

  function Lib(root: Path): Path {
    root + ["lib"]
  }

  function LibEntry(root: Path, name: string): Path {
    root + ["lib", name]
  }

  function Postgres(root: Path): Path {
    root + ["bin", "postgres"]
  }

  function Resolve(fs: Files, path: Path): Path {
    if path in fs.links then fs.links[path] else path
  }

  predicate Exists(fs: Files, path: Path) {
    Resolve(fs, path) in fs.regular || Resolve(fs, path) in fs.dirs
  }

  /** One kind of thing at a path, and links followed to their end. */
  ghost predicate Coherent(fs: Files) {
    && fs.regular.Keys !! fs.dirs && fs.links.Keys !! fs.regular.Keys && fs.links.Keys !! fs.dirs
    && forall p :: p in fs.links ==> fs.links[p] !in fs.links
  }

  /** The links inside the root stay inside it and lead somewhere. */
  predicate LinksStay(fs: Files, root: Path) {
    forall p | p in fs.links :: Within(root, p) ==> Within(root, fs.links[p]) && Exists(fs, p)
  }

  /** The regular ELF files inside the root. */
  function ElfsIn(fs: Files, root: Path): set<Path> {
    set p | p in fs.regular && Within(root, p) && fs.regular[p].identity.Some?
  }

  predicate ObjectsOk(fs: Files, root: Path) {
    LinksStay(fs, root) && Postgres(root) in ElfsIn(fs, root)
  }

  // ---- The search path ----

  function CommonPrefix(a: Path, b: Path): (k: nat)
    ensures k <= |a| && k <= |b| && a[..k] == b[..k]
  {
    if a == [] || b == [] || a[0] != b[0] then 0
    else
      var k := CommonPrefix(a[1..], b[1..]);
      assert a[..k + 1] == [a[0]] + a[1..][..k] && b[..k + 1] == [b[0]] + b[1..][..k];
      k + 1
  }

  function Ups(n: nat): Path {
    if n == 0 then [] else [".."] + Ups(n - 1)
  }

  /** The way from one directory to another. */
  function RelPath(target: Path, from: Path): Path {
    var k := CommonPrefix(target, from);
    Ups(|from| - k) + target[k..]
  }

  /** The search path an object gets, relative to where it stands. */
  function OriginPath(path: Path, root: Path): Path
    requires path != []
  {
    RelPath(Lib(root), path[..|path| - 1])
  }

  /** Walking a relative path from a directory. */
  function Follow(from: Path, way: Path): Path
    decreases |way|
  {
    if way == [] then from
    else if way[0] == ".." then Follow(if from == [] then [] else from[..|from| - 1], way[1..])
    else Follow(from + [way[0]], way[1..])
  }

  lemma {:induction false} FollowUps(from: Path, n: nat, way: Path)
    requires n <= |from|
    ensures Follow(from, Ups(n) + way) == Follow(from[..|from| - n], way)
    decreases n
  {
    if n == 0 {
      assert Ups(0) + way == way && from[..|from|] == from;
    } else {
      assert (Ups(n) + way)[1..] == Ups(n - 1) + way;
      var up := from[..|from| - 1];
      FollowUps(up, n - 1, way);
      assert up[..|up| - (n - 1)] == from[..|from| - n];
    }
  }

  lemma {:induction false} FollowDown(from: Path, way: Path)
    requires ".." !in way
    ensures Follow(from, way) == from + way
    decreases |way|
  {
    if way != [] {
      assert way[0] in way;
      FollowDown(from + [way[0]], way[1..]);
      assert (from + [way[0]]) + way[1..] == from + way;
    }
  }

  lemma {:induction false} CommonPrefixOfShared(shared: Path, a: Path, b: Path)
    ensures CommonPrefix(shared + a, shared + b) == |shared| + CommonPrefix(a, b)
    decreases |shared|
  {
    if shared == [] {
      assert shared + a == a && shared + b == b;
    } else {
      assert (shared + a)[1..] == shared[1..] + a && (shared + b)[1..] == shared[1..] + b;
      CommonPrefixOfShared(shared[1..], a, b);
    }
  }

  /** The search path leads from the object to the root's libraries. */
  lemma OriginPathLeadsToLib(path: Path, root: Path)
    requires path != [] && ".." !in root
    ensures Follow(path[..|path| - 1], OriginPath(path, root)) == Lib(root)
  {
    assert ".." !in Lib(root);
    hide CommonPrefix, Follow, Ups, Lib;
    var from, lib := path[..|path| - 1], Lib(root);
    var k := CommonPrefix(lib, from);
    FollowUps(from, |from| - k, lib[k..]);
    assert from[..|from| - (|from| - k)] == from[..k];
    assert forall s :: s in lib[k..] ==> s in lib;
    FollowDown(from[..k], lib[k..]);
    assert lib[..k] + lib[k..] == lib;
  }

  /** The search path does not depend on where the bundle is installed. */
  lemma OriginPathIsRelocatable(root: Path, other: Path, inside: Path)
    requires inside != []
    ensures OriginPath(root + inside, root) == OriginPath(other + inside, other)
  {
    SearchPathInside(root, inside);
    SearchPathInside(other, inside);
  }

  lemma SearchPathInside(root: Path, inside: Path)
    requires inside != []
    ensures OriginPath(root + inside, root) == RelPath(["lib"], inside[..|inside| - 1])
  {
    var within := inside[..|inside| - 1];
    assert (root + inside)[..|root + inside| - 1] == root + within;
    CommonPrefixOfShared(root, ["lib"], within);
    var k := CommonPrefix(["lib"], within);
    assert Lib(root)[|root| + k..] == ["lib"][k..];
  }

  // ---- Validation ----

  predicate NamesOk(needed: seq<string>) {
    forall i :: 0 <= i < |needed| ==> needed[i] != "" && '/' !in needed[i]
  }

  predicate ValidObject(fs: Files, path: Path, identity: Option<nat>) {
    && path in fs.regular && fs.regular[path].identity == identity
    && path != [] && !IsGlibc(path[|path| - 1])
    && !fs.regular[path].tooNew && NamesOk(fs.regular[path].needed)
  }

  /** What a needed name leads to. */
  function Dependency(fs: Files, root: Path, name: string): Path {
    Resolve(fs, LibEntry(root, name))
  }

  predicate DependencyOk(fs: Files, root: Path, name: string, identity: Option<nat>) {
    var target := Dependency(fs, root, name);
    Within(root, target) && target in fs.regular && fs.regular[target].identity == identity
  }

  predicate ObjectOk(fs: Files, root: Path, path: Path, identity: Option<nat>) {
    && ValidObject(fs, path, identity)
    && (fs.regular[path].needed != [] ==> fs.regular[path].runpath == Some(OriginPath(path, root)))
    && (forall name | name in fs.regular[path].needed :: IsGlibc(name) || DependencyOk(fs, root, name, identity))
  }

  /** What `check` accepts. */
  predicate Checked(fs: Files, root: Path) {
    && Postgres(root) in fs.regular
    && ObjectsOk(fs, root)
    && (forall path | path in fs.regular ::
          path in ElfsIn(fs, root) ==> ObjectOk(fs, root, path, fs.regular[Postgres(root)].identity))
  }

  /** What the check accepts, spelled out: no link of the tree leaves it or leads nowhere; the
      server is an ELF; and each ELF of the tree is of the server's kind, is no part of glibc, and
      asks for no newer glibc than the baseline; it finds its libraries from where it stands; and
      each name it needs is a plain one that glibc provides, or leads to a file of the tree of the
      server's kind. */
  lemma CheckedIsExact(fs: Files, root: Path)
    ensures Checked(fs, root) <==>
      && (forall p :: p in fs.links && root <= p ==>
            root <= fs.links[p] && (Resolve(fs, p) in fs.regular || Resolve(fs, p) in fs.dirs))
      && Postgres(root) in fs.regular && fs.regular[Postgres(root)].identity.Some?
      && forall p :: p in fs.regular && root <= p && fs.regular[p].identity.Some? ==>
           var f := fs.regular[p];
           && f.identity == fs.regular[Postgres(root)].identity && !f.tooNew
           && p != [] && p[|p| - 1] !in GLIBC
           && (f.needed != [] ==> f.runpath == Some(OriginPath(p, root)))
           && (forall i :: 0 <= i < |f.needed| ==> f.needed[i] != "" && '/' !in f.needed[i])
           && forall name :: name in f.needed && name !in GLIBC ==>
                var target := Dependency(fs, root, name);
                root <= target && target in fs.regular && fs.regular[target].identity == f.identity
  {
    hide OriginPath;
    assert root <= Postgres(root);
  }

  // ---- What acceptance means ----

  ghost predicate Needs(fs: Files, root: Path, p: Path, q: Path) {
    p in fs.regular && exists name :: name in fs.regular[p].needed && !IsGlibc(name) && q == Dependency(fs, root, name)
  }

  ghost predicate NeedsAlong(fs: Files, root: Path, chain: seq<Path>) {
    chain != [] && chain[0] == Postgres(root) && forall i :: 0 <= i < |chain| - 1 ==> Needs(fs, root, chain[i], chain[i + 1])
  }

  /** Whatever the server needs, directly or not, is inside the root and is an ELF of
      the server's own kind. */
  lemma {:induction false} CheckedClosure(fs: Files, root: Path, chain: seq<Path>)
    requires Checked(fs, root) && NeedsAlong(fs, root, chain)
    ensures
      var last := chain[|chain| - 1];
      last in ElfsIn(fs, root) && fs.regular[last].identity == fs.regular[Postgres(root)].identity
    decreases |chain|
  {
    if |chain| > 1 {
      var shorter := chain[..|chain| - 1];
      assert forall i :: 0 <= i < |shorter| - 1 ==> Needs(fs, root, shorter[i], shorter[i + 1]) by {
        forall i | 0 <= i < |shorter| - 1 ensures Needs(fs, root, shorter[i], shorter[i + 1]) {
          assert Needs(fs, root, chain[i], chain[i + 1]);
        }
      }
      CheckedClosure(fs, root, shorter);
      var p := chain[|chain| - 2];
      assert p == shorter[|shorter| - 1];
      assert Needs(fs, root, chain[|chain| - 2], chain[|chain| - 2 + 1]);
      assert ObjectOk(fs, root, p, fs.regular[Postgres(root)].identity);
    }
  }
}

/** The worklist of `bundle`, which copies libraries in while it runs. */
module ElfBundle {
  import opened Wrappers
  import opened BundleFiles

  /** The build host's libraries: where each name may be taken from. */
  type Libraries = map<string, seq<Path>>

  /** The paths that may ever be an ELF of the bundle. */
  ghost function Universe(fs: Files, root: Path, libraries: Libraries): set<Path> {
    ElfsIn(fs, root) + (set name | name in libraries :: LibEntry(root, name))
  }

  /** What the worklist changes: files are added under the root's `lib`, and search
      paths are rewritten. */
  ghost predicate Grown(before: Files, fs: Files) {
    && fs.dirs == before.dirs && fs.links == before.links
    && forall p :: p in before.regular ==>
         p in fs.regular && fs.regular[p].(runpath := None) == before.regular[p].(runpath := None)
  }

  /** A processed object is valid, knows its way, and needs only known objects. */
  ghost predicate Processed(fs: Files, root: Path, path: Path, identity: Option<nat>, known: set<Path>) {
    && ValidObject(fs, path, identity)
    && fs.regular[path].runpath == Some(OriginPath(path, root))
    && forall name :: name in fs.regular[path].needed && !IsGlibc(name) ==>
         Dependency(fs, root, name) in known && Exists(fs, LibEntry(root, name))
  }

  ghost predicate AllProcessed(fs: Files, root: Path, identity: Option<nat>, seen: set<Path>, known: set<Path>) {
    forall p :: p in seen ==> Processed(fs, root, p, identity, known)
  }

  ghost predicate AllWithin(root: Path, paths: set<Path>) {
    forall p :: p in paths ==> Within(root, p)
  }

  function Members(pending: seq<Path>): set<Path> {
    set p | p in pending
  }

  /** The state of the worklist between two objects. */
  ghost predicate Inv(before: Files, fs: Files, root: Path, libraries: Libraries, identity: Option<nat>,
                      seen: set<Path>, pending: seq<Path>) {
    && Coherent(fs) && Grown(before, fs)
    && ObjectsOk(fs, root) && identity.Some?
    && AllWithin(root, Members(pending))
    && ElfsIn(fs, root) <= seen + Members(pending)
    && ElfsIn(fs, root) <= Universe(before, root, libraries)
    && seen <= ElfsIn(fs, root)
    && AllProcessed(fs, root, identity, seen, seen + Members(pending))
  }

  /** With nothing pending, what was seen is closed and the check passes. */
  lemma DoneIsChecked(before: Files, fs: Files, root: Path, libraries: Libraries, identity: Option<nat>, seen: set<Path>)
    requires Inv(before, fs, root, libraries, identity, seen, [])
    ensures Checked(fs, root) && ElfsIn(fs, root) == seen
    ensures forall p, name :: p in seen && name in fs.regular[p].needed && !IsGlibc(name) ==> Dependency(fs, root, name) in seen
  {
    hide OriginPath, ValidObject, LinksStay, Coherent, Grown, Universe, IsGlibc;
    assert seen + Members([]) == seen;
    var server := Postgres(root);
    assert Processed(fs, root, server, identity, seen);
    ValidHasIdentity(fs, server, identity);
    forall path | path in ElfsIn(fs, root) ensures ObjectOk(fs, root, path, identity) {
      assert Processed(fs, root, path, identity, seen);
      forall name | name in fs.regular[path].needed ensures IsGlibc(name) || DependencyOk(fs, root, name, identity) {
        if !IsGlibc(name) {
          var target := Dependency(fs, root, name);
          assert Processed(fs, root, target, identity, seen);
          ValidHasIdentity(fs, target, identity);
        }
      }
    }
  }

  lemma ValidHasIdentity(fs: Files, path: Path, identity: Option<nat>)
    requires ValidObject(fs, path, identity)
    ensures path in fs.regular && fs.regular[path].identity == identity
  {
  }

  lemma MembersPush(pending: seq<Path>, p: Path)
    ensures Members(pending + [p]) == Members(pending) + {p}
  {
  }

  // ---- Why a bundle fails ----

  /** What a walk of the tree finds: its ELF objects, or what is wrong with it. */
  datatype Listing = Listed(objects: seq<Path>) | LinkLeaves(link: Path) | LinkBroken(link: Path) | NoServer

  /** The bundle is a directory of a file system. */
  ghost predicate IsTree(fs: Files, root: Path) {
    Coherent(fs) && root in fs.dirs
  }

  /** Everything in the tree: files, directories and links. */
  function EntriesIn(fs: Files, root: Path): set<Path> {
    set p | p in fs.regular.Keys + fs.dirs + fs.links.Keys && Within(root, p) && p != root
  }

  /** What the answer of a walk says about the tree. */
  ghost predicate IsListing(fs: Files, root: Path, r: Listing) {
    match r
    case Listed(objects) => LinksStay(fs, root) && Postgres(root) in ElfsIn(fs, root) && Members(objects) == ElfsIn(fs, root)
    case LinkLeaves(p) => p in fs.links && Within(root, p) && !Within(root, fs.links[p])
    case LinkBroken(p) => p in fs.links && Within(root, p) && !Exists(fs, p)
    case NoServer => LinksStay(fs, root) && Postgres(root) !in ElfsIn(fs, root)
  }

  datatype Source = Found(path: Path) | Missing | Unreadable

  function CandidatesOf(libraries: Libraries, name: string): seq<Path> {
    if name in libraries then libraries[name] else []
  }

  /** The first n candidates can be read, and are of another kind. */
  predicate NoneFits(fs: Files, candidates: seq<Path>, identity: Option<nat>, n: nat) {
    n <= |candidates|
    && forall i | 0 <= i < n :: Resolve(fs, candidates[i]) in fs.regular && fs.regular[Resolve(fs, candidates[i])].identity != identity
  }

  /** What a search of the candidates answers: the first that fits, or that none does, or
      that one cannot be read before any fits. */
  ghost predicate IsSource(fs: Files, candidates: seq<Path>, identity: Option<nat>, r: Source) {
    match r
    case Found(p) =>
      p in fs.regular && fs.regular[p].identity == identity
      && exists k :: 0 <= k < |candidates| && Resolve(fs, candidates[k]) == p && NoneFits(fs, candidates, identity, k)
    case Missing => NoneFits(fs, candidates, identity, |candidates|)
    case Unreadable =>
      exists k :: 0 <= k < |candidates| && Resolve(fs, candidates[k]) !in fs.regular && NoneFits(fs, candidates, identity, k)
  }

  datatype Failure =
    | BadTree(listing: Listing)
    | Invalid(path: Path)
    | NotFound(path: Path, name: string, source: Source)
    | Unlicensed(path: Path, name: string, taken: Path)
    | Leaves(path: Path, name: string)

  /** The object was in the bundle from the start, or one of `users` needs it. */
  ghost predicate IsWanted(before: Files, fs: Files, root: Path, users: set<Path>, p: Path) {
    p in ElfsIn(before, root) || exists q, name :: q in users && IsNeed(fs, root, q, name, p)
  }

  ghost predicate IsNeed(fs: Files, root: Path, q: Path, name: string, p: Path) {
    q in fs.regular && name in fs.regular[q].needed && !IsGlibc(name) && p == Dependency(fs, root, name)
  }

  ghost predicate AllWanted(before: Files, fs: Files, root: Path, users: set<Path>, paths: set<Path>) {
    forall p :: p in paths ==> IsWanted(before, fs, root, users, p)
  }

  /** The object is wanted, and needs the name, which glibc does not provide. */
  ghost predicate Asks(before: Files, fs: Files, root: Path, users: set<Path>, path: Path, name: string) {
    IsWanted(before, fs, root, users, path) && path in fs.regular && name in fs.regular[path].needed && !IsGlibc(name)
  }

  /** A failure names a fault that is there: in the tree as it was, in an object that is
      wanted, or in a name that a wanted object needs. */
  ghost predicate Explains(before: Files, fs: Files, root: Path, libraries: Libraries, licensed: Path -> bool,
                           identity: Option<nat>, users: set<Path>, f: Failure) {
    match f
    case BadTree(listing) => !listing.Listed? && IsListing(before, root, listing)
    case Invalid(p) => IsWanted(before, fs, root, users, p) && !ValidObject(fs, p, identity)
    case NotFound(p, name, source) =>
      Asks(before, fs, root, users, p, name) && !Exists(fs, LibEntry(root, name)) && !source.Found?
      && IsSource(fs, CandidatesOf(libraries, name), identity, source)
    case Unlicensed(p, name, taken) =>
      Asks(before, fs, root, users, p, name) && !Exists(fs, LibEntry(root, name)) && !licensed(taken)
      && IsSource(fs, CandidatesOf(libraries, name), identity, Found(taken))
    case Leaves(p, name) =>
      Asks(before, fs, root, users, p, name) && Exists(fs, LibEntry(root, name)) && !Within(root, Dependency(fs, root, name))
  }

  // ---- Where every file comes from ----

  /** The same file, but for its search path. */
  predicate SameBut(a: ElfFile, b: ElfFile) {
    a.identity == b.identity && a.needed == b.needed && a.tooNew == b.tooNew
  }

  /** The file is a licensed copy of the first of the build host's libraries of its name that is
      of the server's kind. */
  ghost predicate IsCopyOf(fs: Files, root: Path, libraries: Libraries, licensed: Path -> bool, identity: Option<nat>,
                           p: Path, name: string, source: Path) {
    && p == LibEntry(root, name) && p in fs.regular && source in fs.regular
    && IsSource(fs, CandidatesOf(libraries, name), identity, Found(source))
    && licensed(source) && SameBut(fs.regular[p], fs.regular[source])
  }

  ghost predicate HasSource(fs: Files, root: Path, libraries: Libraries, licensed: Path -> bool, identity: Option<nat>,
                            p: Path) {
    exists name, source :: IsCopyOf(fs, root, libraries, licensed, identity, p, name, source)
  }

  /** Every new file is such a copy. What was there is there still: an ELF of the tree as it was
      but for its search path, and any other file just as it was. */
  ghost predicate Honest(before: Files, fs: Files, root: Path, libraries: Libraries, licensed: Path -> bool,
                         identity: Option<nat>) {
    && (forall p :: p in fs.regular && p !in before.regular ==> HasSource(fs, root, libraries, licensed, identity, p))
    && (forall p :: p in before.regular ==>
          p in fs.regular && SameBut(fs.regular[p], before.regular[p])
          && (p !in ElfsIn(before, root) ==> fs.regular[p] == before.regular[p]))
  }

  /** Nothing of a source changes while files are added and search paths set. */
  ghost predicate OnlyGrows(fs: Files, now: Files) {
    now.links == fs.links && forall q :: q in fs.regular ==> q in now.regular && SameBut(now.regular[q], fs.regular[q])
  }

  lemma SourceStays(fs: Files, now: Files, root: Path, libraries: Libraries, licensed: Path -> bool,
                    identity: Option<nat>, p: Path)
    requires OnlyGrows(fs, now) && HasSource(fs, root, libraries, licensed, identity, p)
    ensures HasSource(now, root, libraries, licensed, identity, p)
  {
    var name, source :| IsCopyOf(fs, root, libraries, licensed, identity, p, name, source);
    var candidates := CandidatesOf(libraries, name);
    var k :| 0 <= k < |candidates| && Resolve(fs, candidates[k]) == source && NoneFits(fs, candidates, identity, k);
    assert Resolve(now, candidates[k]) == source && NoneFits(now, candidates, identity, k);
    assert IsCopyOf(now, root, libraries, licensed, identity, p, name, source);
  }

  lemma CopyIsHonest(before: Files, fs: Files, root: Path, libraries: Libraries, licensed: Path -> bool,
                     identity: Option<nat>, name: string, source: Path)
    requires Honest(before, fs, root, libraries, licensed, identity) && LinksStay(fs, root)
    requires !Exists(fs, LibEntry(root, name)) && licensed(source) && source in fs.regular
    requires IsSource(fs, CandidatesOf(libraries, name), identity, Found(source))
    ensures Honest(before, WithFile(fs, LibEntry(root, name), fs.regular[source]), root, libraries, licensed, identity)
  {
    hide HasSource, IsSource, Exists, LinksStay;
    var dest := LibEntry(root, name);
    var now := WithFile(fs, dest, fs.regular[source]);
    CopyLandsOnNothing(fs, root, name);
    assert OnlyGrows(fs, now);
    forall p | p in now.regular && p !in before.regular ensures HasSource(now, root, libraries, licensed, identity, p) {
      if p == dest {
        FoundStays(fs, now, CandidatesOf(libraries, name), identity, source);
        assert IsCopyOf(now, root, libraries, licensed, identity, p, name, source);
        CopyHasSource(now, root, libraries, licensed, identity, p, name, source);
      } else {
        SourceStays(fs, now, root, libraries, licensed, identity, p);
      }
    }
  }

  lemma CopyHasSource(fs: Files, root: Path, libraries: Libraries, licensed: Path -> bool, identity: Option<nat>,
                      p: Path, name: string, source: Path)
    requires IsCopyOf(fs, root, libraries, licensed, identity, p, name, source)
    ensures HasSource(fs, root, libraries, licensed, identity, p)
  {
  }

  lemma FoundStays(fs: Files, now: Files, candidates: seq<Path>, identity: Option<nat>, source: Path)
    requires OnlyGrows(fs, now) && IsSource(fs, candidates, identity, Found(source))
    ensures IsSource(now, candidates, identity, Found(source))
  {
    var k :| 0 <= k < |candidates| && Resolve(fs, candidates[k]) == source && NoneFits(fs, candidates, identity, k);
    assert Resolve(now, candidates[k]) == source && NoneFits(now, candidates, identity, k);
  }

  lemma PatchIsHonest(before: Files, fs: Files, root: Path, libraries: Libraries, licensed: Path -> bool,
                      identity: Option<nat>, path: Path)
    requires Honest(before, fs, root, libraries, licensed, identity) && path in ElfsIn(fs, root) && path != []
    ensures Honest(before, Patched(fs, root, path), root, libraries, licensed, identity)
  {
    hide HasSource, OriginPath;
    var now := Patched(fs, root, path);
    assert OnlyGrows(fs, now);
    forall p | p in now.regular && p !in before.regular ensures HasSource(now, root, libraries, licensed, identity, p) {
      SourceStays(fs, now, root, libraries, licensed, identity, p);
    }
  }

  class Bundler {
    const root: Path
    var fs: Files

    constructor (root: Path, fs: Files)
      ensures this.root == root && this.fs == fs
    {
      this.root, this.fs := root, fs;
    }

    /** Walk the tree, in some order: a link that leaves it or leads nowhere ends the walk. */
    method Objects() returns (r: Listing)
      requires IsTree(fs, root)
      ensures IsListing(fs, root, r)
      ensures r.Listed? <==> ObjectsOk(fs, root)
    {
      var entries := EntriesIn(fs, root);
      var found: seq<Path> := [];
      ghost var walked: set<Path> := {};
      while entries != {}
        invariant walked + entries == EntriesIn(fs, root)
        invariant forall p :: p in walked && p in fs.links ==> Within(root, fs.links[p]) && Exists(fs, p)
        invariant forall p :: p in Members(found) <==>
          p in walked && p !in fs.links && p in fs.regular && fs.regular[p].identity.Some?
        decreases entries
      {
        var p :| p in entries;
        entries, walked := entries - {p}, walked + {p};
        if p in fs.links {
          if !Within(root, fs.links[p]) {
            return LinkLeaves(p);
          }
          if !Exists(fs, p) {
            return LinkBroken(p);
          }
        } else if p in fs.regular && fs.regular[p].identity.Some? {
          MembersPush(found, p);
          found := found + [p];
        }
      }
      WalkedAll(fs, root, found);
      if Postgres(root) !in found {
        return NoServer;
      }
      return Listed(found);
    }

    /** Is the bundle closed? */
    method Check() returns (ok: bool)
      requires IsTree(fs, root)
      ensures ok <==> Checked(fs, root)
    {
      if Postgres(root) !in fs.regular {
        return false;
      }
      var identity := fs.regular[Postgres(root)].identity;
      var objects := Objects();
      if !objects.Listed? {
        return false;
      }
      var list := objects.objects;
      for i := 0 to |list|
        invariant forall k :: 0 <= k < i ==> ObjectOk(fs, root, list[k], identity)
      {
        assert list[i] in Members(list);
        if !ObjectOk(fs, root, list[i], identity) {
          return false;
        }
      }
      forall path | path in fs.regular && path in ElfsIn(fs, root) ensures ObjectOk(fs, root, path, identity) {
        assert path in Members(list);
      }
      return true;
    }

    /** The first build-host copy of a library that is of the right kind. A candidate
        that cannot be read ends the search. */
    method FindSource(candidates: seq<Path>, identity: Option<nat>) returns (r: Source)
      ensures IsSource(fs, candidates, identity, r)
    {
      for i := 0 to |candidates|
        invariant NoneFits(fs, candidates, identity, i)
      {
        var candidate := Resolve(fs, candidates[i]);
        if candidate !in fs.regular {
          return Unreadable;
        }
        if fs.regular[candidate].identity == identity {
          return Found(candidate);
        }
      }
      return Missing;
    }

    /** One needed name of the object in hand: copy its library in when the bundle
        has none, and queue what the name leads to. */
    method Provide(name: string, ghost before: Files, libraries: Libraries, licensed: Path -> bool, identity: Option<nat>,
                   ghost seen: set<Path>, path: Path, ghost done: set<string>, pending: seq<Path>)
      returns (failure: Option<Failure>, queue: seq<Path>)
      requires Busy(before, fs, root, libraries, licensed, identity, seen, path, done, pending) && NeedsName(fs, path, name)
      modifies this
      ensures failure.None? ==>
        Busy(before, fs, root, libraries, licensed, identity, seen, path, done + {name}, queue)
        && SameAt(old(fs), fs, path) && KeepsNeeds(old(fs), fs)
      ensures failure.Some? ==> Explains(before, fs, root, libraries, licensed, identity, seen, failure.value)
    {
      hide Working, Resolve, Exists, IsGlibc, IsSource, IsWanted, AllWanted, Dependency, Honest, LinksStay;
      queue := pending;
      if IsGlibc(name) {
        SkipName(before, fs, root, libraries, identity, seen, path, done, pending, name);
        return None, pending;
      }
      var destination := LibEntry(root, name);
      if !Exists(fs, destination) {
        var source := FindSource(CandidatesOf(libraries, name), identity);
        if !source.Found? {
          return Some(NotFound(path, name, source)), pending;
        }
        if !licensed(source.path) {
          return Some(Unlicensed(path, name, source.path)), pending;
        }
        SourceIsThere(fs, CandidatesOf(libraries, name), identity, source);
        CopyKeeps(before, fs, root, libraries, identity, seen, path, done, pending, name, fs.regular[source.path]);
        CopyKeepsWanted(before, fs, root, libraries, identity, seen, path, done, pending, name, fs.regular[source.path]);
        WorkingLinksStay(before, fs, root, libraries, identity, seen, path, done, pending);
        CopyIsHonest(before, fs, root, libraries, licensed, identity, name, source.path);
        fs := fs.(regular := fs.regular[destination := fs.regular[source.path]]);
        queue := pending + [destination];
        return None, queue;
      }
      var target := Resolve(fs, destination);
      DependencyIs(fs, root, name);
      if !Within(root, target) {
        return Some(Leaves(path, name)), pending;
      }
      QueueKeeps(before, fs, root, libraries, identity, seen, path, done, pending, name);
      NeededIsWanted(before, fs, root, seen, path, name, pending);
      queue := pending + [target];
      return None, queue;
    }

    /** Process one object: validate it, provide what it needs, set its search path. */
    method ProcessObject(path: Path, ghost before: Files, libraries: Libraries, licensed: Path -> bool, identity: Option<nat>,
                         ghost seen: set<Path>, pending: seq<Path>) returns (failure: Option<Failure>, queue: seq<Path>)
      requires Inv(before, fs, root, libraries, identity, seen, pending + [path]) && path !in seen
      requires AllWanted(before, fs, root, seen, Members(pending + [path]))
      requires Honest(before, fs, root, libraries, licensed, identity)
      modifies this
      ensures failure.None? ==> Honest(before, fs, root, libraries, licensed, identity)
      ensures failure.None? ==> Inv(before, fs, root, libraries, identity, seen + {path}, queue)
      ensures failure.None? ==> path in Universe(before, root, libraries) && KeepsNeeds(old(fs), fs)
      ensures failure.None? ==> AllWanted(before, fs, root, seen + {path}, Members(queue))
      ensures failure.Some? ==> Explains(before, fs, root, libraries, licensed, identity, seen, failure.value)
    {
      hide Working, Inv, ValidObject, Universe, IsWanted, AllWanted, Honest;
      queue := pending;
      FirstIsWanted(before, fs, root, seen, pending, path);
      if !ValidObject(fs, path, identity) {
        return Some(Invalid(path)), pending;
      }
      ValidHasIdentity(fs, path, identity);
      StartWorking(before, fs, root, libraries, identity, seen, path, pending);
      var needed := fs.regular[path].needed;
      ghost var done: set<string> := {};
      for i := 0 to |needed|
        invariant Busy(before, fs, root, libraries, licensed, identity, seen, path, done, queue)
        invariant path in fs.regular && fs.regular[path].needed == needed && KeepsNeeds(old(fs), fs)
        invariant forall k :: 0 <= k < i ==> needed[k] in done
      {
        failure, queue := Provide(needed[i], before, libraries, licensed, identity, seen, path, done, queue);
        if failure.Some? {
          return;
        }
        done := done + {needed[i]};
      }
      PatchKeeps(before, fs, root, libraries, identity, seen, path, done, queue);
      PatchKeepsWanted(before, fs, root, seen, path, queue);
      WorkingIsElf(before, fs, root, libraries, identity, seen, path, done, queue);
      PatchIsHonest(before, fs, root, libraries, licensed, identity, path);
      fs := fs.(regular := fs.regular[path := fs.regular[path].(runpath := Some(OriginPath(path, root)))]);
      failure := None;
    }

    /** Bundle every library the server needs. The worklist ends on any graph. It fails only
        for a fault that it names; otherwise what it leaves passes the check, whose answer
        is not in doubt, and holds only what was there or is needed. */
    method Bundle(libraries: Libraries, licensed: Path -> bool) returns (failure: Option<Failure>, seen: set<Path>)
      requires IsTree(fs, root)
      modifies this
      ensures failure.None? ==> Checked(fs, root) && ElfsIn(fs, root) == seen && old(ElfsIn(fs, root)) <= seen
      ensures failure.None? ==>
        forall p, name :: p in seen && p in fs.regular && name in fs.regular[p].needed && !IsGlibc(name)
                          ==> Dependency(fs, root, name) in seen
      ensures failure.None? ==> AllWanted(old(fs), fs, root, seen, seen)
      ensures failure.None? ==>
        Honest(old(fs), fs, root, libraries, licensed, IdentityOf(old(fs), Postgres(root)))
        && fs.links == old(fs.links) && fs.dirs == old(fs.dirs)
      ensures failure.Some? ==> Explains(old(fs), fs, root, libraries, licensed, IdentityOf(old(fs), Postgres(root)), seen,
                                  failure.value)
    {
      hide Working, Inv, Universe, Checked, Dependency, IsGlibc, IsWanted, AllWanted, IsListing, Honest;
      seen := {};
      ghost var before := fs;
      var identity := IdentityOf(fs, Postgres(root));
      var objects := Objects();
      if !objects.Listed? {
        return Some(BadTree(objects)), seen;
      }
      var pending := objects.objects;
      ListedMembers(fs, root, objects);
      StartInv(fs, root, libraries, identity, pending);
      StartWanted(fs, root, pending);
      StartHonest(fs, root, libraries, licensed, identity);
      while pending != []
        invariant Inv(before, fs, root, libraries, identity, seen, pending)
        invariant AllWanted(before, fs, root, seen, Members(pending)) && AllWanted(before, fs, root, seen, seen)
        invariant seen <= Universe(before, root, libraries) && Honest(before, fs, root, libraries, licensed, identity)
        decreases Universe(before, root, libraries) - seen, |pending|
      {
        var path := pending[|pending| - 1];
        var rest := pending[..|pending| - 1];
        assert pending == rest + [path];
        FirstIsWanted(before, fs, root, seen, rest, path);
        if path in seen {
          SkipSeen(before, fs, root, libraries, identity, seen, rest, path);
          pending := rest;
        } else {
          ghost var now := fs;
          failure, pending := ProcessObject(path, before, libraries, licensed, identity, seen, rest);
          if failure.Some? {
            return;
          }
          SeenStaysWanted(before, now, fs, root, seen, path);
          seen := seen + {path};
        }
      }
      EmptyQueue(pending);
      DoneIsChecked(before, fs, root, libraries, identity, seen);
      ElfsStay(before, fs, root, libraries, identity, seen, pending);
      InvIsTree(before, fs, root, libraries, identity, seen, pending);
      InvKeepsLinks(before, fs, root, libraries, identity, seen, pending);
      var ok := Check();
      assert ok;
      failure := None;
    }
  }

  function IdentityOf(fs: Files, path: Path): Option<nat> {
    if path in fs.regular then fs.regular[path].identity else None
  }

  /** Once everything in the tree was walked, what was found is its ELF objects. */
  lemma WalkedAll(fs: Files, root: Path, found: seq<Path>)
    requires IsTree(fs, root)
    requires forall p :: p in EntriesIn(fs, root) && p in fs.links ==> Within(root, fs.links[p]) && Exists(fs, p)
    requires forall p :: p in Members(found) <==>
      p in EntriesIn(fs, root) && p !in fs.links && p in fs.regular && fs.regular[p].identity.Some?
    ensures LinksStay(fs, root) && Members(found) == ElfsIn(fs, root)
    ensures Postgres(root) in found <==> Postgres(root) in Members(found)
  {
    hide Exists, Within;
  }

  lemma SourceIsThere(fs: Files, candidates: seq<Path>, identity: Option<nat>, r: Source)
    requires IsSource(fs, candidates, identity, r) && r.Found?
    ensures r.path in fs.regular && fs.regular[r.path].identity == identity
    ensures candidates != []
  {
  }

  lemma DependencyIs(fs: Files, root: Path, name: string)
    ensures Dependency(fs, root, name) == Resolve(fs, LibEntry(root, name))
  {
  }

  lemma ListedMembers(fs: Files, root: Path, r: Listing)
    requires IsListing(fs, root, r) && r.Listed?
    ensures Members(r.objects) == ElfsIn(fs, root) && ObjectsOk(fs, root)
  {
  }

  lemma InvIsTree(before: Files, fs: Files, root: Path, libraries: Libraries, identity: Option<nat>,
                  seen: set<Path>, pending: seq<Path>)
    requires Inv(before, fs, root, libraries, identity, seen, pending) && root in before.dirs
    ensures IsTree(fs, root)
  {
  }

  /** The whole state while the names `path` needs are being provided. */
  ghost predicate Busy(before: Files, fs: Files, root: Path, libraries: Libraries, licensed: Path -> bool,
                       identity: Option<nat>, seen: set<Path>, path: Path, done: set<string>, pending: seq<Path>) {
    && Working(before, fs, root, libraries, identity, seen, path, done, pending)
    && IsWanted(before, fs, root, seen, path) && AllWanted(before, fs, root, seen + {path}, Members(pending))
    && Honest(before, fs, root, libraries, licensed, identity)
  }

  predicate NeedsName(fs: Files, path: Path, name: string) {
    path in fs.regular && name in fs.regular[path].needed
  }

  predicate SameAt(fs: Files, now: Files, path: Path) {
    path in fs.regular && path in now.regular && now.regular[path] == fs.regular[path]
  }

  lemma StartHonest(fs: Files, root: Path, libraries: Libraries, licensed: Path -> bool, identity: Option<nat>)
    ensures Honest(fs, fs, root, libraries, licensed, identity)
  {
  }

  lemma InvKeepsLinks(before: Files, fs: Files, root: Path, libraries: Libraries, identity: Option<nat>,
                      seen: set<Path>, pending: seq<Path>)
    requires Inv(before, fs, root, libraries, identity, seen, pending)
    ensures fs.links == before.links && fs.dirs == before.dirs
  {
  }

  lemma WorkingIsElf(before: Files, fs: Files, root: Path, libraries: Libraries, identity: Option<nat>,
                     seen: set<Path>, path: Path, done: set<string>, pending: seq<Path>)
    requires Working(before, fs, root, libraries, identity, seen, path, done, pending)
    ensures path in ElfsIn(fs, root)
  {
  }

  lemma WorkingLinksStay(before: Files, fs: Files, root: Path, libraries: Libraries, identity: Option<nat>,
                         seen: set<Path>, path: Path, done: set<string>, pending: seq<Path>)
    requires Working(before, fs, root, libraries, identity, seen, path, done, pending)
    ensures LinksStay(fs, root)
  {
  }

  lemma StartWanted(fs: Files, root: Path, pending: seq<Path>)
    requires Members(pending) == ElfsIn(fs, root)
    ensures AllWanted(fs, fs, root, {}, Members(pending)) && AllWanted(fs, fs, root, {}, {})
  {
  }

  lemma FirstIsWanted(before: Files, fs: Files, root: Path, users: set<Path>, pending: seq<Path>, path: Path)
    requires AllWanted(before, fs, root, users, Members(pending + [path]))
    ensures IsWanted(before, fs, root, users, path) && AllWanted(before, fs, root, users, Members(pending))
    ensures AllWanted(before, fs, root, users + {path}, Members(pending))
  {
    hide IsNeed;
    MembersPush(pending, path);
  }

  lemma NeededIsWanted(before: Files, fs: Files, root: Path, seen: set<Path>, path: Path, name: string, pending: seq<Path>)
    requires AllWanted(before, fs, root, seen + {path}, Members(pending))
    requires path in fs.regular && name in fs.regular[path].needed && !IsGlibc(name)
    ensures AllWanted(before, fs, root, seen + {path}, Members(pending + [Dependency(fs, root, name)]))
  {
    hide Dependency, IsGlibc;
    MembersPush(pending, Dependency(fs, root, name));
    assert IsNeed(fs, root, path, name, Dependency(fs, root, name));
  }

  /** What a growing file system wanted, it still wants, whoever else may want more. */
  lemma WantedGrows(before: Files, fs: Files, now: Files, root: Path, users: set<Path>, more: set<Path>, p: Path)
    requires IsWanted(before, fs, root, users, p) && users <= more && KeepsNeeds(fs, now)
    ensures IsWanted(before, now, root, more, p)
  {
    hide IsGlibc;
    if p !in ElfsIn(before, root) {
      var q, name :| q in users && IsNeed(fs, root, q, name, p);
      assert IsNeed(now, root, q, name, p);
    }
  }

  /** Links stay, and every file stays with what it needs. */
  ghost predicate KeepsNeeds(fs: Files, now: Files) {
    now.links == fs.links && forall q :: q in fs.regular ==> q in now.regular && now.regular[q].needed == fs.regular[q].needed
  }

  lemma CopyKeepsWanted(before: Files, fs: Files, root: Path, libraries: Libraries, identity: Option<nat>, seen: set<Path>,
                        path: Path, done: set<string>, pending: seq<Path>, name: string, copy: ElfFile)
    requires Working(before, fs, root, libraries, identity, seen, path, done, pending)
    requires path in fs.regular && name in fs.regular[path].needed && !IsGlibc(name) && !Exists(fs, LibEntry(root, name))
    requires IsWanted(before, fs, root, seen, path) && AllWanted(before, fs, root, seen + {path}, Members(pending))
    ensures
      var now := WithFile(fs, LibEntry(root, name), copy);
      && IsWanted(before, now, root, seen, path) && KeepsNeeds(fs, now)
      && AllWanted(before, now, root, seen + {path}, Members(pending + [LibEntry(root, name)]))
  {
    hide IsWanted, IsGlibc;
    var dest := LibEntry(root, name);
    var now := WithFile(fs, dest, copy);
    CopyLandsOnNothing(fs, root, name);
    assert KeepsNeeds(fs, now);
    WantedGrows(before, fs, now, root, seen, seen, path);
    forall p | p in Members(pending) ensures IsWanted(before, now, root, seen + {path}, p) {
      WantedGrows(before, fs, now, root, seen + {path}, seen + {path}, p);
    }
    NeededIsWanted(before, now, root, seen, path, name, pending);
    assert Dependency(now, root, name) == dest;
  }

  lemma PatchKeepsWanted(before: Files, fs: Files, root: Path, seen: set<Path>, path: Path, queue: seq<Path>)
    requires path in fs.regular && path != []
    requires AllWanted(before, fs, root, seen + {path}, Members(queue))
    ensures AllWanted(before, Patched(fs, root, path), root, seen + {path}, Members(queue))
  {
    hide IsWanted, OriginPath;
    forall p | p in Members(queue) ensures IsWanted(before, Patched(fs, root, path), root, seen + {path}, p) {
      WantedGrows(before, fs, Patched(fs, root, path), root, seen + {path}, seen + {path}, p);
    }
  }

  lemma SeenStaysWanted(before: Files, fs: Files, now: Files, root: Path, seen: set<Path>, path: Path)
    requires KeepsNeeds(fs, now)
    requires AllWanted(before, fs, root, seen, seen) && IsWanted(before, fs, root, seen, path)
    ensures AllWanted(before, now, root, seen + {path}, seen + {path})
  {
    hide IsWanted;
    forall p | p in seen + {path} ensures IsWanted(before, now, root, seen + {path}, p) {
      WantedGrows(before, fs, now, root, seen, seen + {path}, p);
    }
  }

  lemma EmptyQueue(pending: seq<Path>)
    ensures pending == [] ==> Members(pending) == {}
  {
  }

  lemma ElfsStay(before: Files, fs: Files, root: Path, libraries: Libraries, identity: Option<nat>,
                 seen: set<Path>, pending: seq<Path>)
    requires Inv(before, fs, root, libraries, identity, seen, pending)
    ensures ElfsIn(before, root) <= ElfsIn(fs, root)
  {
    forall p | p in ElfsIn(before, root) ensures p in ElfsIn(fs, root) {
      assert fs.regular[p].(runpath := None).identity == before.regular[p].(runpath := None).identity;
    }
  }

  /** The state while the names `path` needs are being provided; `done` are. */
  ghost predicate Working(before: Files, fs: Files, root: Path, libraries: Libraries, identity: Option<nat>,
                          seen: set<Path>, path: Path, done: set<string>, pending: seq<Path>) {
    && Coherent(fs) && Grown(before, fs)
    && ObjectsOk(fs, root) && identity.Some?
    && AllWithin(root, Members(pending))
    && path in ElfsIn(fs, root) && path !in seen && ValidObject(fs, path, identity)
    && ElfsIn(fs, root) <= seen + {path} + Members(pending)
    && ElfsIn(fs, root) <= Universe(before, root, libraries)
    && seen <= ElfsIn(fs, root)
    && AllProcessed(fs, root, identity, seen, seen + {path} + Members(pending))
    && forall name :: name in done && !IsGlibc(name) ==>
         Dependency(fs, root, name) in seen + {path} + Members(pending) && Exists(fs, LibEntry(root, name))
  }

  lemma StartInv(fs: Files, root: Path, libraries: Libraries, identity: Option<nat>, pending: seq<Path>)
    requires Coherent(fs) && ObjectsOk(fs, root) && Members(pending) == ElfsIn(fs, root)
    requires identity == fs.regular[Postgres(root)].identity
    ensures Inv(fs, fs, root, libraries, identity, {}, pending)
  {
    hide LinksStay, Coherent;
  }

  lemma SkipSeen(before: Files, fs: Files, root: Path, libraries: Libraries, identity: Option<nat>,
                 seen: set<Path>, rest: seq<Path>, path: Path)
    requires Inv(before, fs, root, libraries, identity, seen, rest + [path]) && path in seen
    ensures Inv(before, fs, root, libraries, identity, seen, rest)
  {
    hide LinksStay, Coherent, Grown, Universe, Processed;
    MembersPush(rest, path);
    assert seen + Members(rest + [path]) == seen + Members(rest);
  }

  lemma StartWorking(before: Files, fs: Files, root: Path, libraries: Libraries, identity: Option<nat>,
                     seen: set<Path>, path: Path, pending: seq<Path>)
    requires Inv(before, fs, root, libraries, identity, seen, pending + [path]) && path !in seen
    requires ValidObject(fs, path, identity)
    ensures Working(before, fs, root, libraries, identity, seen, path, {}, pending)
  {
    hide LinksStay, Coherent, Grown, Universe, Processed;
    MembersPush(pending, path);
    assert seen + Members(pending + [path]) == seen + {path} + Members(pending);
  }

  lemma SkipName(before: Files, fs: Files, root: Path, libraries: Libraries, identity: Option<nat>,
                 seen: set<Path>, path: Path, done: set<string>, pending: seq<Path>, name: string)
    requires Working(before, fs, root, libraries, identity, seen, path, done, pending) && IsGlibc(name)
    ensures Working(before, fs, root, libraries, identity, seen, path, done + {name}, pending)
  {
    hide LinksStay, Coherent, Grown, Universe, Processed, ValidObject, IsGlibc;
  }

  lemma QueueKeeps(before: Files, fs: Files, root: Path, libraries: Libraries, identity: Option<nat>,
                   seen: set<Path>, path: Path, done: set<string>, pending: seq<Path>, name: string)
    requires Working(before, fs, root, libraries, identity, seen, path, done, pending)
    requires Exists(fs, LibEntry(root, name)) && Within(root, Dependency(fs, root, name))
    ensures Working(before, fs, root, libraries, identity, seen, path, done + {name}, pending + [Dependency(fs, root, name)])
  {
    hide LinksStay, Coherent, Grown, Universe, ValidObject, IsGlibc, Exists, Dependency;
    MembersPush(pending, Dependency(fs, root, name));
    MoreKnown(fs, root, identity, seen, seen + {path} + Members(pending),
              seen + {path} + Members(pending + [Dependency(fs, root, name)]));
  }

  lemma MoreKnown(fs: Files, root: Path, identity: Option<nat>, seen: set<Path>, known: set<Path>, more: set<Path>)
    requires AllProcessed(fs, root, identity, seen, known) && known <= more
    ensures AllProcessed(fs, root, identity, seen, more)
  {
    hide ValidObject, IsGlibc, Exists, Dependency, OriginPath;
    forall p | p in seen ensures Processed(fs, root, p, identity, more) {
      assert Processed(fs, root, p, identity, known);
    }
  }

  // ---- Copying a library in ----

  function WithFile(fs: Files, path: Path, file: ElfFile): Files {
    fs.(regular := fs.regular[path := file])
  }

  lemma CopyLandsOnNothing(fs: Files, root: Path, name: string)
    requires LinksStay(fs, root) && !Exists(fs, LibEntry(root, name))
    ensures LibEntry(root, name) !in fs.links && LibEntry(root, name) !in fs.regular && LibEntry(root, name) !in fs.dirs
    ensures Within(root, LibEntry(root, name))
  {
    assert LibEntry(root, name)[..|root|] == root;
  }

  /** Adding a file where nothing was changes nothing that was there. */
  lemma CopyIsHarmless(fs: Files, root: Path, name: string, copy: ElfFile)
    requires Coherent(fs) && ObjectsOk(fs, root) && !Exists(fs, LibEntry(root, name)) && copy.identity.Some?
    ensures
      var now := WithFile(fs, LibEntry(root, name), copy);
      && Coherent(now) && ObjectsOk(now, root)
      && ElfsIn(now, root) == ElfsIn(fs, root) + {LibEntry(root, name)}
      && (forall p :: Exists(fs, p) ==> Exists(now, p))
      && (forall n :: Dependency(now, root, n) == Dependency(fs, root, n))
      && Dependency(now, root, name) == LibEntry(root, name) && Exists(now, LibEntry(root, name))
  {
    CopyLandsOnNothing(fs, root, name);
    var now := WithFile(fs, LibEntry(root, name), copy);
    assert forall p :: Resolve(now, p) == Resolve(fs, p);
    assert forall p :: Exists(fs, p) ==> Exists(now, p);
  }

  lemma ProcessedAfterCopy(fs: Files, root: Path, identity: Option<nat>, name: string, copy: ElfFile, p: Path, known: set<Path>)
    requires Coherent(fs) && ObjectsOk(fs, root) && !Exists(fs, LibEntry(root, name)) && copy.identity.Some?
    requires Processed(fs, root, p, identity, known)
    ensures Processed(WithFile(fs, LibEntry(root, name), copy), root, p, identity, known)
  {
    hide OriginPath, NamesOk, IsGlibc, Exists, Dependency, LinksStay, Coherent;
    CopyIsHarmless(fs, root, name, copy);
    CopyLandsOnNothing(fs, root, name);
  }

  lemma CopyKeeps(before: Files, fs: Files, root: Path, libraries: Libraries, identity: Option<nat>,
                  seen: set<Path>, path: Path, done: set<string>, pending: seq<Path>, name: string, copy: ElfFile)
    requires Working(before, fs, root, libraries, identity, seen, path, done, pending)
    requires !Exists(fs, LibEntry(root, name)) && name in libraries && copy.identity == identity
    ensures Working(before, WithFile(fs, LibEntry(root, name), copy), root, libraries, identity, seen, path, done + {name},
                    pending + [LibEntry(root, name)])
    ensures path in fs.regular && path != LibEntry(root, name)
  {
    hide OriginPath, IsGlibc, Exists, Dependency, LinksStay, Coherent, NamesOk;
    var dest := LibEntry(root, name);
    var now := WithFile(fs, dest, copy);
    CopyLandsOnNothing(fs, root, name);
    CopyIsHarmless(fs, root, name, copy);
    MembersPush(pending, dest);
    var known, more := seen + {path} + Members(pending), seen + {path} + Members(pending + [dest]);
    forall p | p in seen ensures Processed(now, root, p, identity, known) {
      ProcessedAfterCopy(fs, root, identity, name, copy, p, known);
    }
    MoreKnown(now, root, identity, seen, known, more);
    hide Processed;
    CopyGrows(before, fs, dest, copy);
    CopyInUniverse(before, fs, now, root, libraries, name);
  }

  lemma CopyGrows(before: Files, fs: Files, dest: Path, copy: ElfFile)
    requires Grown(before, fs) && dest !in fs.regular
    ensures Grown(before, WithFile(fs, dest, copy))
  {
  }

  lemma CopyInUniverse(before: Files, fs: Files, now: Files, root: Path, libraries: Libraries, name: string)
    requires ElfsIn(fs, root) <= Universe(before, root, libraries) && name in libraries
    requires ElfsIn(now, root) == ElfsIn(fs, root) + {LibEntry(root, name)}
    ensures ElfsIn(now, root) <= Universe(before, root, libraries)
  {
  }

  // ---- Setting a search path ----

  function Patched(fs: Files, root: Path, path: Path): Files
    requires path in fs.regular && path != []
  {
    fs.(regular := fs.regular[path := fs.regular[path].(runpath := Some(OriginPath(path, root)))])
  }

  lemma PatchIsHarmless(fs: Files, root: Path, path: Path)
    requires Coherent(fs) && ObjectsOk(fs, root) && path in fs.regular && path != []
    ensures
      var now := Patched(fs, root, path);
      && Coherent(now) && ObjectsOk(now, root) && ElfsIn(now, root) == ElfsIn(fs, root)
      && (forall p :: Exists(fs, p) <==> Exists(now, p))
      && (forall n :: Dependency(now, root, n) == Dependency(fs, root, n))
  {
    hide OriginPath;
    var now := Patched(fs, root, path);
    assert forall p :: Resolve(now, p) == Resolve(fs, p);
  }

  lemma ProcessedAfterPatch(fs: Files, root: Path, identity: Option<nat>, path: Path, p: Path, known: set<Path>)
    requires Coherent(fs) && ObjectsOk(fs, root) && path in fs.regular && path != []
    requires Processed(fs, root, p, identity, known)
    ensures Processed(Patched(fs, root, path), root, p, identity, known)
  {
    hide OriginPath, NamesOk, IsGlibc, Exists, Dependency, LinksStay, Coherent;
    PatchIsHarmless(fs, root, path);
  }

  lemma PatchKeeps(before: Files, fs: Files, root: Path, libraries: Libraries, identity: Option<nat>,
                   seen: set<Path>, path: Path, done: set<string>, pending: seq<Path>)
    requires Working(before, fs, root, libraries, identity, seen, path, done, pending)
    requires path in fs.regular && forall name :: name in fs.regular[path].needed ==> name in done
    ensures path != [] && Inv(before, Patched(fs, root, path), root, libraries, identity, seen + {path}, pending)
    ensures path in Universe(before, root, libraries)
  {
    hide OriginPath, IsGlibc, Exists, Dependency, LinksStay, Coherent, NamesOk, Universe;
    var now := Patched(fs, root, path);
    PatchIsHarmless(fs, root, path);
    var known := seen + {path} + Members(pending);
    forall p | p in seen + {path} ensures Processed(now, root, p, identity, known) {
      if p != path {
        ProcessedAfterPatch(fs, root, identity, path, p, known);
      }
    }
    hide Processed;
    PatchGrows(before, fs, root, path);
  }

  lemma PatchGrows(before: Files, fs: Files, root: Path, path: Path)
    requires Grown(before, fs) && path in fs.regular && path != []
    ensures Grown(before, Patched(fs, root, path))
  {
    hide OriginPath;
  }
}
