/** Fetches that fail without naming a dependency (src/runner/fetch_cas_dependencies.py). */
module CasUnnamed {
  import opened Prelude
  import opened CasFetch
  import opened CasReport
  import opened CasChains

  /** A fetch that fails names no dependency if and only if all it was asked for arrived and what
      failed is listed by parent manifests only that are no dependencies themselves. */
  lemma NamesNothingExactly(f: Fetch)
    requires IsFetch(f) && f.result.Result?
    ensures f.result.missingDeps == [] <==>
            && f.failed == {}
            && forall d, e :: d in f.deps && Lists(f.w, f.after, d.md5, e) ==> e !in f.nestedFailed
  {
    var failed := f.failed + f.nestedFailed;
    if x :| x in f.failed {
      var d :| d in f.deps && ((d.md5 == x && x != "") || d.parent == Some(x));
      assert IsMissing(f.w, f.after, failed, d) && Identifier(d) in f.result.missingDeps;
    } else if d, e :| d in f.deps && Lists(f.w, f.after, d.md5, e) && e in f.nestedFailed {
      assert e in Entries(f.w, f.after, d.md5).value && e in failed;
      assert IsMissing(f.w, f.after, failed, d) && Identifier(d) in f.result.missingDeps;
    } else {
      forall d | d in f.deps ensures !IsMissing(f.w, f.after, failed, d) {
        NothingToBlame(f, d);
      }
      NoneMissing(f.w, f.after, failed, f.deps);
    }
  }

  lemma NothingToBlame(f: Fetch, d: Dep)
    requires IsFetch(f) && f.result.Result? && f.failed == {} && d in f.deps
    requires forall e :: Lists(f.w, f.after, d.md5, e) ==> e !in f.nestedFailed
    ensures !IsMissing(f.w, f.after, f.failed + f.nestedFailed, d)
  {
    forall h | h in Top(f.deps) ensures h !in f.nestedFailed { TopDoesNotFailLater(f, h); }
    forall e | e in f.nestedFailed ensures e != "" {
      assert IsNested(f.w, f.mid, Top(f.deps), f.failed, e);
    }
    assert d.md5 != "" ==> d.md5 in Top(f.deps);
    assert d.parent.Some? ==> d.parent.value in Top(f.deps);
  }

  /** What arrived in the first batch does not fail in the second. */
  lemma TopDoesNotFailLater(f: Fetch, h: Hash)
    requires IsFetch(f) && f.result.Result? && h in Top(f.deps) && h !in f.failed
    ensures h !in f.nestedFailed
  {
    ManifestStays(f, h);
    BatchIsSafe(f.w, f.first, f.sources, Top(f.deps), f.before, f.mid, f.failed);
  }

  // ---------------------------------------------------------------- one for every unnamed parent

  /** The hashes of a set in some order. */
  ghost function Listing(s: set<Hash>): (r: seq<Hash>)
    ensures Enumerates(r, s)
  {
    if s == {} then []
    else
      var x :| x in s;
      [x] + Listing(s - {x})
  }

  /** The content of a length; contents of different lengths stand for different names. */
  function Zeros(n: nat): Content {
    seq(n, i => 0 as Byte)
  }

  /** A hash function under which the content of length `i` hashes to the name number `i`, and a
      parser that finds one entry in the manifest number `k` and none in the others. */
  ghost function SampleWorld(names: seq<Hash>, k: nat, entry: Hash): World {
    World(c => if |c| < |names| then Expected(names[|c|]) else seq(32, i => '0'),
          c => Some(if |c| == k then [entry] else []),
          true)
  }

  /** The number of a name. */
  ghost function IndexOf(names: seq<Hash>, h: Hash): (i: nat)
    requires h in names
    ensures i < |names| && names[i] == h
  {
    var i :| 0 <= i < |names| && names[i] == h;
    i
  }

  /** A cache that holds exactly the names. */
  ghost function SampleCache(names: seq<Hash>): Objects {
    map h | h in Elements(names) :: Zeros(IndexOf(names, h))
  }

  function Elements(names: seq<Hash>): set<Hash> {
    set h | h in names
  }

  /** A hash that is not in the set. */
  lemma {:induction false} LongerThanAll(s: set<Hash>) returns (n: nat)
    ensures forall h :: h in s ==> |h| < n
  {
    if s == {} {
      n := 3;
    } else {
      var x :| x in s;
      var m := LongerThanAll(s - {x});
      n := m + |x| + 1;
    }
  }

  lemma NewHash(s: set<Hash>) returns (g: Hash)
    ensures g !in s && |g| > 2 && !IsDir(g)
  {
    var n := LongerThanAll(s);
    g := seq(n + 3, i => 'a');
    assert g[|g| - 1] == 'a' && ".dir"[3] == 'r';
    assert |g| >= 4 ==> g[|g| - 4..][3] == 'a';
  }

  /** Peers that answer nothing. */
  function Silent(): Peers {
    (s: Source, h: Hash) => []
  }

  ghost function SampleFetch(deps: seq<Dep>, w: World, cache: Objects, g: Hash): Fetch {
    Fetch(w, deps, Silent(), Silent(), map[], map[], cache, cache, cache, {g}, {}, {g}, Result(false, [], {g}))
  }

  lemma SampleIsValid(names: seq<Hash>, k: nat, g: Hash, h: Hash)
    requires NoDup(names) && h in names
    ensures Valid(SampleWorld(names, k, g), SampleCache(names), h)
  {
    var i := IndexOf(names, h);
    assert h in Elements(names) && |SampleCache(names)[h]| == i;
  }

  lemma SampleEntries(names: seq<Hash>, p: Hash, g: Hash, h: Hash)
    requires NoDup(names) && p in names && h in names
    ensures Entries(SampleWorld(names, IndexOf(names, p), g), SampleCache(names), h) == Some(if h == p then [g] else [])
  {
    assert h in Elements(names) && |SampleCache(names)[h]| == IndexOf(names, h);
  }

  lemma SilentAnswersNothing(h: Hash)
    ensures Answers(Silent(), h, SourcesOf(map[], h)) == []
  {
  }

  lemma SilentBatchFails(w: World, cache: Objects, g: Hash)
    requires g !in cache && |g| > 2
    ensures BatchDone(w, Silent(), map[], {g}, cache, cache, {g})
  {
    SilentAnswersNothing(g);
  }

  lemma SampleFirstBatch(deps: seq<Dep>, names: seq<Hash>, k: nat, g: Hash)
    requires Enumerates(names, Top(deps)) && forall h :: h in Top(deps) ==> |h| >= 2
    ensures FirstBatch(SampleFetch(deps, SampleWorld(names, k, g), SampleCache(names), g))
  {
    forall h | h in Top(deps) ensures Valid(SampleWorld(names, k, g), SampleCache(names), h) {
      SampleIsValid(names, k, g, h);
    }
  }

  lemma SampleNested(deps: seq<Dep>, names: seq<Hash>, p: Hash, g: Hash, e: Hash)
    requires Enumerates(names, Top(deps)) && p in Top(deps) && IsDir(p) && g != ""
    ensures IsNested(SampleWorld(names, IndexOf(names, p), g), SampleCache(names), Top(deps), {}, e) <==> e == g
  {
    var w, cache := SampleWorld(names, IndexOf(names, p), g), SampleCache(names);
    SampleEntries(names, p, g, p);
    assert ListedIn(w, cache, Top(deps), {}, p, g);
    forall h | ListedIn(w, cache, Top(deps), {}, h, e) ensures e == g {
      SampleEntries(names, p, g, h);
    }
  }

  lemma SampleSecondBatch(deps: seq<Dep>, names: seq<Hash>, p: Hash, g: Hash)
    requires Enumerates(names, Top(deps)) && p in Top(deps) && IsDir(p) && g !in Top(deps) && |g| > 2
    ensures SecondBatch(SampleFetch(deps, SampleWorld(names, IndexOf(names, p), g), SampleCache(names), g))
  {
    forall e
      ensures IsNested(SampleWorld(names, IndexOf(names, p), g), SampleCache(names), Top(deps), {}, e) <==> e in {g}
    {
      SampleNested(deps, names, p, g, e);
    }
    SilentBatchFails(SampleWorld(names, IndexOf(names, p), g), SampleCache(names), g);
  }

  lemma SampleIsReadable(deps: seq<Dep>, names: seq<Hash>, p: Hash, g: Hash)
    requires Enumerates(names, Top(deps)) && p in Top(deps)
    ensures !Unreadable(SampleWorld(names, IndexOf(names, p), g), SampleCache(names), Top(deps), {})
  {
    forall h | h in Top(deps) ensures Entries(SampleWorld(names, IndexOf(names, p), g), SampleCache(names), h).Some? {
      SampleEntries(names, p, g, h);
    }
  }

  lemma SampleNamesNothing(deps: seq<Dep>, names: seq<Hash>, p: Hash, g: Hash)
    requires Enumerates(names, Top(deps)) && p in Top(deps) && g !in Top(deps) && g != ""
    requires forall d :: d in deps ==> d.md5 != p
    ensures MissingDeps(SampleWorld(names, IndexOf(names, p), g), SampleCache(names), {g}, deps) == []
  {
    var w, cache := SampleWorld(names, IndexOf(names, p), g), SampleCache(names);
    forall d | d in deps ensures !IsMissing(w, cache, {g}, d) {
      assert d.md5 != "" ==> d.md5 in Top(deps);
      assert d.parent.Some? ==> d.parent.value in Top(deps);
      if d.md5 in Top(deps) { SampleEntries(names, p, g, d.md5); }
    }
    NoneMissing(w, cache, {g}, deps);
  }

  lemma SampleIsFetch(deps: seq<Dep>, names: seq<Hash>, p: Hash, g: Hash)
    requires Enumerates(names, Top(deps)) && p in Top(deps) && IsDir(p) && g !in Top(deps) && |g| > 2
    requires forall d :: d in deps ==> d.md5 != p
    requires forall h :: h in Top(deps) ==> |h| >= 2
    ensures IsFetch(SampleFetch(deps, SampleWorld(names, IndexOf(names, p), g), SampleCache(names), g))
  {
    SampleFirstBatch(deps, names, IndexOf(names, p), g);
    SampleIsReadable(deps, names, p, g);
    SampleSecondBatch(deps, names, p, g);
    SampleNamesNothing(deps, names, p, g);
    var none: set<Hash> := {};
    assert none + {g} == {g};
  }

  lemma SampleDigests(names: seq<Hash>, k: nat, g: Hash)
    requires forall h :: h in names ==> |Expected(h)| == 32
    ensures Digests(SampleWorld(names, k, g))
  {
  }

  /** Some name stands for no digest: nothing can ever match it. */
  ghost predicate HopelessName(deps: seq<Dep>) {
    exists h :: h in Top(deps) && |Expected(h)| != 32
  }

  /** For any dependencies that name digests, with a parent manifest that is no dependency itself,
      there is a fetch that finds all of them, fails because of a sibling, and names none. */
  lemma UnnamedParentFails(deps: seq<Dep>) returns (f: Fetch)
    requires !ParentsNamed(deps) && !HopelessName(deps)
    ensures IsFetch(f) && Digests(f.w) && f.deps == deps
    ensures f.result.Result? && !f.result.success && f.result.missingDeps == []
    ensures forall h :: h in Top(deps) ==> Valid(f.w, f.after, h)
  {
    var p :| p in Top(deps) && IsDir(p) && !exists d :: d in deps && d.md5 == p;
    var names := Listing(Top(deps));
    var g := NewHash(Top(deps));
    f := SampleFetch(deps, SampleWorld(names, IndexOf(names, p), g), SampleCache(names), g);
    forall h | h in Top(deps) ensures |h| >= 2 { ExpectedIsShorter(h); }
    SampleIsFetch(deps, names, p, g);
    SampleDigests(names, IndexOf(names, p), g);
    forall h | h in Top(deps) ensures Valid(f.w, f.after, h) { SampleIsValid(names, IndexOf(names, p), g, h); }
  }

  /** A name that stands for no digest is never in the cache, so it fails and is blamed. */
  lemma HopelessNameIsBlamed(f: Fetch)
    requires IsFetch(f) && Digests(f.w) && f.result.Result? && HopelessName(f.deps)
    ensures f.result.missingDeps != []
  {
    var h :| h in Top(f.deps) && |Expected(h)| != 32;
    if h !in f.failed { ManifestStays(f, h); }
    NamesNothingExactly(f);
  }

  /** Every failed fetch of the dependencies names one of them, whatever the peers serve. */
  ghost predicate AlwaysNamed(deps: seq<Dep>) {
    forall f: Fetch :: IsFetch(f) && Digests(f.w) && f.deps == deps && f.result.Result? && !f.result.success
                   ==> f.result.missingDeps != []
  }

  /** That is so if and only if every parent manifest is a dependency too or some name stands for
      no digest. */
  lemma FailureNamesSomethingExactly(deps: seq<Dep>)
    ensures AlwaysNamed(deps) <==> ParentsNamed(deps) || HopelessName(deps)
  {
    if ParentsNamed(deps) || HopelessName(deps) {
      forall f: Fetch | IsFetch(f) && Digests(f.w) && f.deps == deps && f.result.Result? && !f.result.success
        ensures f.result.missingDeps != []
      {
        if ParentsNamed(deps) { FailureNamesSomething(f); } else { HopelessNameIsBlamed(f); }
      }
    } else {
      var f := UnnamedParentFails(deps);
    }
  }
}
