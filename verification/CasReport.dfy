/** What fetch_dependencies reports, and what its report means for the cache
    (src/runner/fetch_cas_dependencies.py). */
module CasReport {
  import opened Prelude
  import opened CasFetch

  datatype Result = Raised | Result(success: bool, missingDeps: seq<string>, missingHashes: set<Hash>)

  predicate ListsFailed(entries: Option<seq<Hash>>, failed: set<Hash>) {
    entries.Some? && exists e :: e in entries.value && e in failed
  }

  predicate IsMissing(w: World, objects: Objects, failed: set<Hash>, d: Dep) {
    || d.md5 in failed
    || (d.parent.Some? && d.parent.value in failed)
    || (IsDir(d.md5) && ListsFailed(Entries(w, objects, d.md5), failed))
  }

  function Identifier(d: Dep): string {
    if d.path != "" then d.path else d.md5
  }

  /** The missing dependencies by path, or by hash if they have no path, each once. */
  function MissingDeps(w: World, objects: Objects, failed: set<Hash>, deps: seq<Dep>): (r: seq<string>)
    ensures NoDup(r)
    ensures forall x :: x in r <==> exists d :: d in deps && IsMissing(w, objects, failed, d) && x == Identifier(d)
  {
    if deps == [] then []
    else
      var front := MissingDeps(w, objects, failed, deps[..|deps| - 1]);
      var d := deps[|deps| - 1];
      assert deps == deps[..|deps| - 1] + [d];
      if IsMissing(w, objects, failed, d) && Identifier(d) !in front then front + [Identifier(d)] else front
  }

  function Report(w: World, objects: Objects, failed: set<Hash>, deps: seq<Dep>): Result {
    Result(failed == {}, MissingDeps(w, objects, failed, deps), failed)
  }

  /** A manifest that is no list makes the fetch raise. */
  ghost predicate Unreadable(w: World, objects: Objects, top: set<Hash>, failed: set<Hash>) {
    exists h :: h in top && h !in failed && IsDir(h) && Entries(w, objects, h).None?
  }

  /** A fetch: what it is given, the cache before, between and after its two batches of downloads,
      the hashes of the second batch, what failed in each, and the report. */
  datatype Fetch = Fetch(
    w: World, deps: seq<Dep>, first: Peers, second: Peers, sources: Sources, laterSources: Sources,
    before: Objects, mid: Objects, after: Objects, nested: set<Hash>,
    failed: set<Hash>, nestedFailed: set<Hash>, result: Result)

  ghost predicate FirstBatch(f: Fetch) {
    BatchDone(f.w, f.first, f.sources, Top(f.deps), f.before, f.mid, f.failed)
  }

  ghost predicate SecondBatch(f: Fetch) {
    && (forall e :: e in f.nested <==> IsNested(f.w, f.mid, Top(f.deps), f.failed, e))
    && BatchDone(f.w, f.second, f.laterSources, f.nested, f.mid, f.after, f.nestedFailed)
  }

  /** The named hashes and parent manifests first, then the entries of the manifests. */
  ghost predicate IsFetch(f: Fetch) {
    && FirstBatch(f)
    && if Unreadable(f.w, f.mid, Top(f.deps), f.failed) then f.result == Raised && f.after == f.mid
       else SecondBatch(f) && f.result == Report(f.w, f.after, f.failed + f.nestedFailed, f.deps)
  }

  lemma SecondIsSafe(f: Fetch)
    requires SecondBatch(f)
    ensures OnlyMatchesWritten(f.w, f.mid, f.after) && ValidStay(f.w, f.mid, f.after)
    ensures forall h :: h in f.nested && h !in f.nestedFailed ==> Valid(f.w, f.after, h)
  {
    BatchIsSafe(f.w, f.second, f.laterSources, f.nested, f.mid, f.after, f.nestedFailed);
  }

  /** The second batch leaves the manifests as the first one fetched them. */
  lemma ManifestStays(f: Fetch, h: Hash)
    requires FirstBatch(f) && SecondBatch(f) && h in Top(f.deps) && h !in f.failed
    ensures Valid(f.w, f.after, h) && Entries(f.w, f.after, h) == Entries(f.w, f.mid, h)
  {
    SecondIsSafe(f);
    assert Valid(f.w, f.mid, h);
  }

  // ---------------------------------------------------------------- whatever the sources serve

  lemma SafeTwice(w: World, a: Objects, b: Objects, c: Objects)
    requires OnlyMatchesWritten(w, a, b) && ValidStay(w, a, b) && OnlyMatchesWritten(w, b, c) && ValidStay(w, b, c)
    ensures OnlyMatchesWritten(w, a, c) && ValidStay(w, a, c)
  {
    forall h | Valid(w, a, h) ensures Lookup(c, h) == Some(a[h]) {
      assert Lookup(b, h) == Some(a[h]) && Valid(w, b, h);
    }
  }

  /** Whatever bytes the sources serve and however the fetch ends, each object written matches its
      name, and no object that matched is touched. */
  lemma FetchIsSafe(f: Fetch)
    requires IsFetch(f)
    ensures OnlyMatchesWritten(f.w, f.before, f.after) && ValidStay(f.w, f.before, f.after)
  {
    if f.result.Result? {
      SecondIsSafe(f);
      SafeTwice(f.w, f.before, f.mid, f.after);
    }
  }

  // ---------------------------------------------------------------- success

  /** All that the dependencies name is there and matches. */
  ghost predicate Complete(w: World, deps: seq<Dep>, objects: Objects) {
    && (forall h :: h in Top(deps) ==> Valid(w, objects, h))
    && (forall h :: h in Top(deps) && IsDir(h) ==> EntriesValid(w, objects, h))
  }

  ghost predicate EntriesValid(w: World, objects: Objects, h: Hash) {
    && Entries(w, objects, h).Some?
    && forall e :: e in Entries(w, objects, h).value && e != "" ==> Valid(w, objects, e)
  }

  lemma ManifestIsComplete(f: Fetch, h: Hash)
    requires IsFetch(f) && f.result.Result? && f.nestedFailed == {} && h in Top(f.deps) && h !in f.failed && IsDir(h)
    ensures EntriesValid(f.w, f.after, h)
  {
    ManifestStays(f, h);
    SecondIsSafe(f);
    forall e | e in Entries(f.w, f.after, h).value && e != "" ensures Valid(f.w, f.after, e) {
      assert ListedIn(f.w, f.mid, Top(f.deps), f.failed, h, e);
    }
  }

  /** A successful fetch leaves every named hash, every parent manifest and every entry of their
      manifests in the cache, each matching its name. */
  lemma SuccessIsComplete(f: Fetch)
    requires IsFetch(f) && f.result.Result? && f.result.success
    ensures Complete(f.w, f.deps, f.after)
  {
    forall h | h in Top(f.deps) ensures Valid(f.w, f.after, h) { ManifestStays(f, h); }
    forall h | h in Top(f.deps) && IsDir(h) ensures EntriesValid(f.w, f.after, h) { ManifestIsComplete(f, h); }
  }

  lemma BatchChangesNothing(w: World, peers: Peers, sources: Sources, all: set<Hash>, before: Objects,
                            after: Objects, failed: set<Hash>)
    requires BatchDone(w, peers, sources, all, before, after, failed)
    requires Digests(w) && forall h :: h in all ==> Valid(w, before, h)
    ensures after == before && failed == {}
  {
    forall h | h in all ensures |h| >= 2 { ExpectedIsShorter(h); }
    forall h ensures Lookup(after, h) == Lookup(before, h) {
    }
    assert forall h :: h in after <==> Lookup(after, h).Some?;
    assert forall h :: h in before <==> Lookup(before, h).Some?;
  }

  lemma {:induction false} NoneMissing(w: World, objects: Objects, failed: set<Hash>, deps: seq<Dep>)
    requires forall d :: d in deps ==> !IsMissing(w, objects, failed, d)
    ensures MissingDeps(w, objects, failed, deps) == []
  {
    if deps != [] { NoneMissing(w, objects, failed, deps[..|deps| - 1]); }
  }

  /** On a complete cache a fetch succeeds and changes nothing, whatever the peers answer: in
      particular after a successful one. */
  lemma CompleteNeedsNothing(f: Fetch)
    requires IsFetch(f) && Complete(f.w, f.deps, f.before)
    requires Digests(f.w)
    ensures f.result == Result(true, [], {}) && f.after == f.before
  {
    BatchChangesNothing(f.w, f.first, f.sources, Top(f.deps), f.before, f.mid, f.failed);
    BatchChangesNothing(f.w, f.second, f.laterSources, f.nested, f.mid, f.after, f.nestedFailed);
    assert f.failed + f.nestedFailed == {};
    NoneMissing(f.w, f.after, {}, f.deps);
  }

  // ---------------------------------------------------------------- failure

  /** A reported hash that is in the cache and matches failed in the first batch and arrived in the
      second. */
  lemma ReportedButPresent(f: Fetch, h: Hash)
    requires IsFetch(f) && f.result.Result? && h in f.result.missingHashes && |h| >= 2
    ensures Valid(f.w, f.after, h) <==> h in f.failed && h in f.nested && h !in f.nestedFailed
  {
    DownloadYieldsMatch(f.w, f.before, h, Answers(f.first, h, SourcesOf(f.sources, h)));
    DownloadYieldsMatch(f.w, f.mid, h, Answers(f.second, h, SourcesOf(f.laterSources, h)));
  }

  /** Every parent manifest is also a dependency of its own. */
  ghost predicate ParentsNamed(deps: seq<Dep>) {
    forall h :: h in Top(deps) && IsDir(h) ==> exists d :: d in deps && d.md5 == h
  }

  /** The dependency to blame for a hash that failed. */
  lemma Blame(f: Fetch, x: Hash) returns (d: Dep)
    requires IsFetch(f) && f.result.Result? && x in f.result.missingHashes && ParentsNamed(f.deps)
    ensures d in f.deps && IsMissing(f.w, f.after, f.result.missingHashes, d)
  {
    if x in f.failed {
      d :| d in f.deps && ((d.md5 == x && x != "") || d.parent == Some(x));
    } else {
      assert IsNested(f.w, f.mid, Top(f.deps), f.failed, x);
      var h :| ListedIn(f.w, f.mid, Top(f.deps), f.failed, h, x);
      ManifestStays(f, h);
      d :| d in f.deps && d.md5 == h;
    }
  }

  /** Then a fetch that fails names a dependency. */
  lemma FailureNamesSomething(f: Fetch)
    requires IsFetch(f) && f.result.Result? && !f.result.success && ParentsNamed(f.deps)
    ensures f.result.missingDeps != []
  {
    var x :| x in f.result.missingHashes;
    var d := Blame(f, x);
    assert Identifier(d) in f.result.missingDeps;
  }
}
