/** Manifests that list manifests: how far a fetch resolves them
    (src/runner/fetch_cas_dependencies.py). */
module CasChains {
  import opened Prelude
  import opened CasFetch
  import opened CasReport

  /** The manifest under `h` lists `e`. */
  ghost predicate Lists(w: World, objects: Objects, h: Hash, e: Hash) {
    e != "" && IsDir(h) && Entries(w, objects, h).Some? && e in Entries(w, objects, h).value
  }

  /** From a named hash or a parent manifest through manifests that list the next one. */
  ghost predicate Chain(w: World, deps: seq<Dep>, objects: Objects, c: seq<Hash>) {
    && c != [] && c[0] in Top(deps)
    && forall i :: 0 <= i < |c| - 1 ==> Lists(w, objects, c[i], c[i + 1])
  }

  function Last(c: seq<Hash>): Hash
    requires c != []
  {
    c[|c| - 1]
  }

  /** What the documentation promises: everything that manifests lead to is there and matches. */
  ghost predicate Resolved(w: World, deps: seq<Dep>, objects: Objects) {
    forall c :: Chain(w, deps, objects, c) ==> Valid(w, objects, Last(c))
  }

  /** Named, or listed by a manifest that is named or is a parent. */
  ghost predicate FirstLevel(w: World, deps: seq<Dep>, objects: Objects, e: Hash) {
    e in Top(deps) || exists h :: h in Top(deps) && Lists(w, objects, h, e)
  }

  lemma FirstLevelIsValid(f: Fetch, e: Hash)
    requires IsFetch(f) && f.result.Result? && f.result.success && FirstLevel(f.w, f.deps, f.after, e)
    ensures Valid(f.w, f.after, e)
  {
    SuccessIsComplete(f);
    if e !in Top(f.deps) {
      var h :| h in Top(f.deps) && Lists(f.w, f.after, h, e);
      assert EntriesValid(f.w, f.after, h);
    }
  }

  /** Beyond the first level a fetch touches nothing. */
  lemma DeeperStays(f: Fetch, e: Hash)
    requires IsFetch(f) && f.result.Result? && f.result.success && !FirstLevel(f.w, f.deps, f.after, e)
    ensures Lookup(f.after, e) == Lookup(f.before, e)
  {
    assert f.failed <= f.failed + f.nestedFailed;
    if IsNested(f.w, f.mid, Top(f.deps), f.failed, e) {
      var h :| ListedIn(f.w, f.mid, Top(f.deps), f.failed, h, e);
      ManifestStays(f, h);
      assert Lists(f.w, f.after, h, e);
    }
    assert e !in f.nested;
  }

  /** A successful fetch resolves everything if and only if what lies beyond the first level was in
      the cache before. */
  lemma ResolvedExactly(f: Fetch)
    requires IsFetch(f) && f.result.Result? && f.result.success
    ensures Resolved(f.w, f.deps, f.after) <==>
            forall c :: Chain(f.w, f.deps, f.after, c) && !FirstLevel(f.w, f.deps, f.after, Last(c)) ==>
              Valid(f.w, f.before, Last(c))
  {
    forall c | Chain(f.w, f.deps, f.after, c)
      ensures Valid(f.w, f.after, Last(c)) <==>
                FirstLevel(f.w, f.deps, f.after, Last(c)) || Valid(f.w, f.before, Last(c))
    {
      if FirstLevel(f.w, f.deps, f.after, Last(c)) { FirstLevelIsValid(f, Last(c)); } else { DeeperStays(f, Last(c)); }
    }
  }

  /** Every manifest that a named manifest or a parent lists is named or a parent too. */
  ghost predicate ManifestsNamed(w: World, deps: seq<Dep>, objects: Objects) {
    forall h, e :: h in Top(deps) && Lists(w, objects, h, e) && IsDir(e) ==> e in Top(deps)
  }

  lemma {:induction false} ChainStaysNamed(w: World, deps: seq<Dep>, objects: Objects, c: seq<Hash>, i: nat)
    requires ManifestsNamed(w, deps, objects) && Chain(w, deps, objects, c) && i < |c| && (i > 0 ==> i < |c| - 1)
    ensures c[i] in Top(deps)
  {
    if i > 0 {
      ChainStaysNamed(w, deps, objects, c, i - 1);
      assert Lists(w, objects, c[i - 1], c[i]) && Lists(w, objects, c[i], c[i + 1]);
    }
  }

  /** Then the promise holds: every chain ends in an object that is there and matches. */
  lemma NamedManifestsResolve(f: Fetch)
    requires IsFetch(f) && f.result.Result? && f.result.success && ManifestsNamed(f.w, f.deps, f.after)
    ensures Resolved(f.w, f.deps, f.after)
  {
    forall c | Chain(f.w, f.deps, f.after, c) ensures Valid(f.w, f.after, Last(c)) {
      if |c| > 1 {
        ChainStaysNamed(f.w, f.deps, f.after, c, |c| - 2);
        assert Lists(f.w, f.after, c[|c| - 2], c[|c| - 1]);
      }
      FirstLevelIsValid(f, Last(c));
    }
  }

  /** And it fails for every unnamed manifest with an entry that is absent: a fetch that finds the
      first level complete succeeds without opening it. */
  lemma NestedManifestStaysClosed(f: Fetch, h: Hash, q: Hash, x: Hash)
    requires IsFetch(f) && Digests(f.w) && Complete(f.w, f.deps, f.before)
    requires h in Top(f.deps) && Lists(f.w, f.before, h, q) && Lists(f.w, f.before, q, x) && x !in f.before
    ensures f.result == Result(true, [], {}) && f.after == f.before
    ensures x !in f.after && !Resolved(f.w, f.deps, f.after)
  {
    CompleteNeedsNothing(f);
    assert Chain(f.w, f.deps, f.after, [h, q, x]) && Last([h, q, x]) == x;
  }

  /** However the fetch came to succeed: an entry that only an unnamed manifest lists stays absent. */
  lemma DeeperEntryStaysAbsent(f: Fetch, h: Hash, q: Hash, x: Hash)
    requires IsFetch(f) && f.result.Result? && f.result.success
    requires h in Top(f.deps) && Lists(f.w, f.after, h, q) && Lists(f.w, f.after, q, x)
    requires !FirstLevel(f.w, f.deps, f.after, x) && x !in f.before
    ensures x !in f.after && !Resolved(f.w, f.deps, f.after)
  {
    DeeperStays(f, x);
    assert Chain(f.w, f.deps, f.after, [h, q, x]) && Last([h, q, x]) == x;
  }
}
