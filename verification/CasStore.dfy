/** The local object cache as an object that src/runner/fetch_cas_dependencies.py updates in place. */
module CasStore {
  import opened Prelude
  import opened CasFetch
  import opened CasReport

  lemma {:induction false} FirstMatchAppends(w: World, h: Hash, a: seq<Reply>, b: seq<Reply>)
    ensures FirstMatch(w, h, a + b) == if FirstMatch(w, h, a).Some? then FirstMatch(w, h, a) else FirstMatch(w, h, b)
  {
    if b == [] {
      assert a + b == a;
    } else {
      assert (a + b)[..|a + b| - 1] == a + b[..|b| - 1];
      FirstMatchAppends(w, h, a, b[..|b| - 1]);
    }
  }

  /** The match found is the first: no answer before it matches. */
  lemma {:induction false} NothingMatchesBefore(w: World, h: Hash, replies: seq<Reply>) returns (i: nat)
    requires FirstMatch(w, h, replies).Some?
    ensures i < |replies| && replies[i] == Body(FirstMatch(w, h, replies).value)
    ensures forall j :: 0 <= j < i && replies[j].Body? ==> w.md5(replies[j].content) != Expected(h)
  {
    var front := replies[..|replies| - 1];
    if FirstMatch(w, h, front).Some? {
      i := NothingMatchesBefore(w, h, front);
    } else {
      i := |front|;
      forall j | 0 <= j < i && replies[j].Body? ensures w.md5(replies[j].content) != Expected(h) {
        assert Body(replies[j].content) == front[j];
      }
    }
  }

  /** The answers begin with those of the first sources. */
  lemma {:induction false} AnswersBegin(peers: Peers, h: Hash, sources: seq<Source>, i: nat)
    requires i <= |sources|
    ensures Answers(peers, h, sources[..i]) <= Answers(peers, h, sources)
    decreases |sources| - i
  {
    if i == |sources| {
      assert sources[..i] == sources;
    } else {
      assert sources[..i + 1][..i] == sources[..i];
      AnswersBegin(peers, h, sources, i + 1);
    }
  }

  /** A match found early is the first of all. */
  lemma FoundEarly(w: World, h: Hash, some: seq<Reply>, all: seq<Reply>)
    requires some <= all && FirstMatch(w, h, some).Some?
    ensures FirstMatch(w, h, all) == FirstMatch(w, h, some)
  {
    assert all == some + all[|some|..];
    FirstMatchAppends(w, h, some, all[|some|..]);
  }

  // ---------------------------------------------------------------- sources

  /** Candidate lists without duplicates, made of given sources only. */
  ghost predicate FromGiven(m: Sources, given: set<Source>) {
    forall h :: h in m ==> NoDup(m[h]) && forall u :: u in m[h] ==> u in given
  }

  lemma {:induction false} AddSourcesAddsAll(m: Sources, h: Hash, urls: seq<Source>, given: set<Source>)
    requires FromGiven(m, given) && forall u :: u in urls ==> u in given
    ensures FromGiven(AddSources(m, h, urls), given)
    ensures forall k :: SourcesOf(m, k) <= SourcesOf(AddSources(m, h, urls), k)
    ensures forall u :: u in urls ==> u in SourcesOf(AddSources(m, h, urls), h)
  {
    if urls != [] {
      assert urls == urls[..|urls| - 1] + [urls[|urls| - 1]];
      AddSourcesAddsAll(m, h, urls[..|urls| - 1], given);
    }
  }

  lemma AddDepKeepsGiven(m: Sources, d: Dep, given: set<Source>)
    requires FromGiven(m, given) && forall u :: u in d.sources ==> u in given
    ensures FromGiven(AddDep(m, d), given)
    ensures forall k :: SourcesOf(m, k) <= SourcesOf(AddDep(m, d), k)
    ensures forall u :: u in d.sources ==> u in SourcesOf(AddDep(m, d), d.md5)
    ensures d.parent.Some? ==>
              forall u :: u in SourcesOf(AddDep(m, d), d.md5) ==> u in SourcesOf(AddDep(m, d), d.parent.value)
  {
    var own := AddSources(m, d.md5, d.sources);
    AddSourcesAddsAll(m, d.md5, d.sources, given);
    if d.parent.Some? {
      var p := d.parent.value;
      var shared := AddSources(own, d.md5, SourcesOf(own, p));
      AddSourcesAddsAll(own, d.md5, SourcesOf(own, p), given);
      AddSourcesAddsAll(shared, p, SourcesOf(shared, d.md5), given);
      AddSourcesElsewhere(shared, p, SourcesOf(shared, d.md5), d.md5);
    }
  }

  lemma {:induction false} AddSourcesElsewhere(m: Sources, h: Hash, urls: seq<Source>, k: Hash)
    ensures k != h ==> SourcesOf(AddSources(m, h, urls), k) == SourcesOf(m, k)
  {
    if urls != [] { AddSourcesElsewhere(m, h, urls[..|urls| - 1], k); }
  }

  /** Only given sources are ever asked, each once; a dependency's list has those given with it. */
  lemma {:induction false} MergedAreGiven(m: Sources, deps: seq<Dep>, given: set<Source>)
    requires FromGiven(m, given) && forall d, u :: d in deps && u in d.sources ==> u in given
    ensures FromGiven(AddDeps(m, deps), given)
    ensures forall k :: SourcesOf(m, k) <= SourcesOf(AddDeps(m, deps), k)
    ensures forall d, u :: d in deps && u in d.sources ==> u in SourcesOf(AddDeps(m, deps), d.md5)
  {
    if deps != [] {
      var front, d := deps[..|deps| - 1], deps[|deps| - 1];
      assert deps == front + [d];
      MergedAreGiven(m, front, given);
      AddDepKeepsGiven(AddDeps(m, front), d, given);
    }
  }

  /** A dependency and its parent manifest share what they have. */
  lemma {:induction false} MergedAreShared(m: Sources, deps: seq<Dep>, given: set<Source>, d: Dep, u: Source)
    requires FromGiven(m, given) && forall d, u :: d in deps && u in d.sources ==> u in given
    requires d in deps && d.parent.Some?
    ensures u in d.sources ==> u in SourcesOf(AddDeps(m, deps), d.parent.value)
    ensures u in SourcesOf(m, d.parent.value) ==> u in SourcesOf(AddDeps(m, deps), d.md5)
  {
    var front, last := deps[..|deps| - 1], deps[|deps| - 1];
    assert deps == front + [last];
    MergedAreGiven(m, front, given);
    AddDepKeepsGiven(AddDeps(m, front), last, given);
    if d == last {
      AddDepShares(AddDeps(m, front), d, given, u);
    } else {
      MergedAreShared(m, front, given, d, u);
    }
  }

  lemma AddDepShares(m: Sources, d: Dep, given: set<Source>, u: Source)
    requires FromGiven(m, given) && (forall u :: u in d.sources ==> u in given) && d.parent.Some?
    ensures u in d.sources ==> u in SourcesOf(AddDep(m, d), d.parent.value)
    ensures u in SourcesOf(m, d.parent.value) ==> u in SourcesOf(AddDep(m, d), d.md5)
  {
    AddDepKeepsGiven(m, d, given);
    var p, own := d.parent.value, AddSources(m, d.md5, d.sources);
    AddSourcesAddsAll(m, d.md5, d.sources, given);
    var shared := AddSources(own, d.md5, SourcesOf(own, p));
    AddSourcesAddsAll(own, d.md5, SourcesOf(own, p), given);
    AddSourcesAddsAll(shared, p, SourcesOf(shared, d.md5), given);
  }

  method Offer(m: Sources, h: Hash, urls: seq<Source>) returns (m': Sources)
    ensures m' == AddSources(m, h, urls)
  {
    m' := m;
    for i := 0 to |urls|
      invariant m' == AddSources(m, h, urls[..i])
    {
      assert urls[..i + 1][..i] == urls[..i];
      if urls[i] !in SourcesOf(m', h) { m' := m'[h := SourcesOf(m', h) + [urls[i]]]; }
    }
    assert urls[..|urls|] == urls;
  }

  method MergeSources(listed: seq<(Hash, seq<Source>)>, deps: seq<Dep>) returns (m: Sources)
    ensures m == AddDeps(AddListed(map[], listed), deps)
  {
    m := map[];
    for i := 0 to |listed|
      invariant m == AddListed(map[], listed[..i])
    {
      assert listed[..i + 1][..i] == listed[..i];
      m := Offer(m, listed[i].0, listed[i].1);
    }
    assert listed[..|listed|] == listed;
    for i := 0 to |deps|
      invariant m == AddDeps(AddListed(map[], listed), deps[..i])
    {
      assert deps[..i + 1][..i] == deps[..i];
      var d := deps[i];
      m := Offer(m, d.md5, d.sources);
      if d.parent.Some? {
        m := Offer(m, d.md5, SourcesOf(m, d.parent.value));
        m := Offer(m, d.parent.value, SourcesOf(m, d.md5));
      }
    }
    assert deps[..|deps|] == deps;
  }

  // ---------------------------------------------------------------- steps of the fetch

  method NormalizeAll(items: seq<Item>) returns (deps: seq<Dep>)
    ensures deps == Normalize(items)
  {
    deps := [];
    for i := 0 to |items|
      invariant deps == Normalize(items[..i])
    {
      assert items[..i + 1][..i] == items[..i];
      match items[i]
      case Bare(h) => deps := deps + [Dep("", h, [], None)];
      case Item(path, h, sources, parent, stageOutput) =>
        if stageOutput { deps := deps + [Dep(path, h, sources, if parent == "" then None else Some(parent))]; }
    }
    assert items[..|items|] == items;
  }

  method TopLevel(deps: seq<Dep>) returns (top: set<Hash>)
    ensures top == Top(deps)
  {
    top := {};
    for i := 0 to |deps|
      invariant top == Top(deps[..i])
    {
      assert deps[..i + 1][..i] == deps[..i];
      if deps[i].md5 != "" { top := top + {deps[i].md5}; }
      if deps[i].parent.Some? { top := top + {deps[i].parent.value}; }
    }
    assert deps[..|deps|] == deps;
  }

  method OfferEntries(m: Sources, entries: seq<Hash>, urls: seq<Source>) returns (m': Sources)
    ensures m' == AddEntries(m, entries, urls)
  {
    m' := m;
    for i := 0 to |entries|
      invariant m' == AddEntries(m, entries[..i], urls)
    {
      assert entries[..i + 1][..i] == entries[..i];
      if entries[i] != "" { m' := Offer(m', entries[i], urls); }
    }
    assert entries[..|entries|] == entries;
  }

  lemma {:induction false} AddEntriesAddsAll(m: Sources, entries: seq<Hash>, urls: seq<Source>, given: set<Source>)
    requires FromGiven(m, given) && forall u :: u in urls ==> u in given
    ensures FromGiven(AddEntries(m, entries, urls), given)
    ensures forall k :: SourcesOf(m, k) <= SourcesOf(AddEntries(m, entries, urls), k)
    ensures forall e, u :: e in entries && e != "" && u in urls ==> u in SourcesOf(AddEntries(m, entries, urls), e)
  {
    if entries != [] {
      var front, e := entries[..|entries| - 1], entries[|entries| - 1];
      assert entries == front + [e];
      AddEntriesAddsAll(m, front, urls, given);
      if e != "" { AddSourcesAddsAll(AddEntries(m, front, urls), e, urls, given); }
    }
  }

  /** Every source that the caller or a dependency names. */
  ghost function Given(listed: seq<(Hash, seq<Source>)>, deps: seq<Dep>): set<Source> {
    (set p, u | p in listed && u in p.1 :: u) + (set d, u | d in deps && u in d.sources :: u)
  }

  lemma {:induction false} ListedAreGiven(listed: seq<(Hash, seq<Source>)>, given: set<Source>)
    requires forall p, u :: p in listed && u in p.1 ==> u in given
    ensures FromGiven(AddListed(map[], listed), given)
  {
    if listed != [] {
      var front, p := listed[..|listed| - 1], listed[|listed| - 1];
      assert listed == front + [p];
      ListedAreGiven(front, given);
      AddSourcesAddsAll(AddListed(map[], front), p.0, p.1, given);
    }
  }

  lemma {:induction false} ListedAreOffered(listed: seq<(Hash, seq<Source>)>, u: Source)
    ensures forall h, urls :: (h, urls) in listed && u in urls ==> u in SourcesOf(AddListed(map[], listed), h)
  {
    if listed != [] {
      var front, p := listed[..|listed| - 1], listed[|listed| - 1];
      assert listed == front + [p];
      ListedAreOffered(front, u);
      var all := Given(listed, []);
      ListedAreGiven(front, all);
      AddSourcesAddsAll(AddListed(map[], front), p.0, p.1, all);
    }
  }

  lemma SourcesAreGiven(listed: seq<(Hash, seq<Source>)>, deps: seq<Dep>)
    ensures FromGiven(AddDeps(AddListed(map[], listed), deps), Given(listed, deps))
  {
    ListedAreGiven(listed, Given(listed, deps));
    MergedAreGiven(AddListed(map[], listed), deps, Given(listed, deps));
  }

  /** The later lists extend the earlier ones, and an entry has the sources of its manifests. */
  ghost predicate Shares(w: World, objects: Objects, top: set<Hash>, failed: set<Hash>, sources: Sources,
                         later: Sources) {
    && (forall k :: SourcesOf(sources, k) <= SourcesOf(later, k))
    && (forall h, e :: ListedIn(w, objects, top, failed, h, e) && e != "" ==>
         Subset(SourcesOf(sources, h), SourcesOf(later, e)))
  }

  ghost predicate Subset(a: seq<Source>, b: seq<Source>) {
    forall u :: u in a ==> u in b
  }

  lemma ReadOne(w: World, objects: Objects, top: set<Hash>, failed: set<Hash>, h: Hash)
    ensures Unreadable(w, objects, top + {h}, failed) <==>
            Unreadable(w, objects, top, failed) || (h !in failed && IsDir(h) && Entries(w, objects, h).None?)
    ensures forall e :: IsNested(w, objects, top + {h}, failed, e) <==>
            IsNested(w, objects, top, failed, e) || (e != "" && ListedIn(w, objects, {h}, failed, h, e))
  {
    forall e ensures IsNested(w, objects, top + {h}, failed, e) <==>
            IsNested(w, objects, top, failed, e) || (e != "" && ListedIn(w, objects, {h}, failed, h, e))
    {
      if IsNested(w, objects, top + {h}, failed, e) {
        var k :| ListedIn(w, objects, top + {h}, failed, k, e);
        assert ListedIn(w, objects, if k == h then {h} else top, failed, k, e);
      }
      if IsNested(w, objects, top, failed, e) {
        var k :| ListedIn(w, objects, top, failed, k, e);
        assert ListedIn(w, objects, top + {h}, failed, k, e);
      }
      if e != "" && ListedIn(w, objects, {h}, failed, h, e) {
        assert ListedIn(w, objects, top + {h}, failed, h, e);
      }
    }
  }

  lemma SharesGrows(w: World, objects: Objects, top: set<Hash>, failed: set<Hash>, h: Hash, sources: Sources,
                    before: Sources, later: Sources)
    requires Shares(w, objects, top, failed, sources, before)
    requires forall k :: SourcesOf(before, k) <= SourcesOf(later, k)
    requires forall e :: ListedIn(w, objects, {h}, failed, h, e) && e != "" ==>
               Subset(SourcesOf(before, h), SourcesOf(later, e))
    ensures Shares(w, objects, top + {h}, failed, sources, later)
  {
    forall k, e | ListedIn(w, objects, top + {h}, failed, k, e) && e != ""
      ensures Subset(SourcesOf(sources, k), SourcesOf(later, e))
    {
      if k == h {
        assert ListedIn(w, objects, {h}, failed, h, e);
        assert SourcesOf(sources, h) <= SourcesOf(before, h);
      } else {
        assert ListedIn(w, objects, top, failed, k, e);
        assert SourcesOf(before, e) <= SourcesOf(later, e);
      }
    }
  }

  // ---------------------------------------------------------------- the cache

  class Cache {
    const w: World
    var objects: Objects

    constructor (w: World, objects: Objects)
      ensures this.w == w && this.objects == objects
    {
      this.w := w;
      this.objects := objects;
    }

    method DownloadSingleObject(h: Hash, sources: seq<Source>, peers: Peers) returns (ok: bool)
      modifies this
      ensures Lookup(objects, h) == Fetched(w, old(objects), h, Answers(peers, h, sources))
      ensures forall k :: k != h ==> Lookup(objects, k) == Lookup(old(objects), k)
      ensures ok == Obtains(w, old(objects), h, Answers(peers, h, sources))
    {
      if |h| < 2 { return false; }
      if h in objects {
        if w.md5(objects[h]) == Expected(h) { return true; }
        objects := objects - {h};
      }
      if !w.authorised || !IsName(h) { return false; }
      var found := AskSources(h, sources, peers);
      if found.Some? { objects := objects[h := found.value]; }
      ok := found.Some?;
    }

    /** The first answer of the sources that matches. */
    method AskSources(h: Hash, sources: seq<Source>, peers: Peers) returns (found: Option<Content>)
      ensures found == FirstMatch(w, h, Answers(peers, h, sources))
    {
      for i := 0 to |sources|
        invariant FirstMatch(w, h, Answers(peers, h, sources[..i])).None?
      {
        assert sources[..i + 1][..i] == sources[..i];
        found := AskOne(h, peers(sources[i], h));
        FirstMatchAppends(w, h, Answers(peers, h, sources[..i]), peers(sources[i], h));
        if found.Some? {
          AnswersBegin(peers, h, sources, i + 1);
          FoundEarly(w, h, Answers(peers, h, sources[..i + 1]), Answers(peers, h, sources));
          return;
        }
      }
      assert sources[..|sources|] == sources;
      found := None;
    }

    method AskOne(h: Hash, replies: seq<Reply>) returns (found: Option<Content>)
      ensures found == FirstMatch(w, h, replies)
    {
      for j := 0 to |replies|
        invariant FirstMatch(w, h, replies[..j]).None?
      {
        assert replies[..j + 1][..j] == replies[..j];
        if replies[j].Body? && w.md5(replies[j].content) == Expected(h) {
          FoundEarly(w, h, replies[..j + 1], replies);
          return Some(replies[j].content);
        }
      }
      assert replies[..|replies|] == replies;
      found := None;
    }

    /** Downloads every hash once, in an arbitrary order. */
    method DownloadAll(all: set<Hash>, sources: Sources, peers: Peers) returns (failed: set<Hash>)
      modifies this
      ensures BatchDone(w, peers, sources, all, old(objects), objects, failed)
    {
      var rest := all;
      failed := {};
      while rest != {}
        invariant rest <= all
        invariant BatchDone(w, peers, sources, all - rest, old(objects), objects, failed)
      {
        var h :| h in rest;
        ghost var mid := objects;
        ghost var got := failed;
        var ok := DownloadSingleObject(h, SourcesOf(sources, h), peers);
        if !ok { failed := failed + {h}; }
        BatchGrows(w, peers, sources, all - rest, old(objects), mid, got, h, objects);
        assert all - rest + {h} == all - (rest - {h});
        rest := rest - {h};
      }
      assert all - rest == all;
    }

    /** Reads the manifests among the hashes that did not fail, in an arbitrary order. */
    method InspectManifests(top: set<Hash>, failed: set<Hash>, sources: Sources, ghost given: set<Source>)
      returns (readable: bool, nested: set<Hash>, later: Sources)
      requires FromGiven(sources, given)
      ensures readable == !Unreadable(w, objects, top, failed)
      ensures readable ==> forall e :: e in nested <==> IsNested(w, objects, top, failed, e)
      ensures readable ==> Shares(w, objects, top, failed, sources, later) && FromGiven(later, given)
    {
      var rest := top;
      nested, later := {}, sources;
      while rest != {}
        invariant rest <= top
        invariant !Unreadable(w, objects, top - rest, failed)
        invariant forall e :: e in nested <==> IsNested(w, objects, top - rest, failed, e)
        invariant Shares(w, objects, top - rest, failed, sources, later) && FromGiven(later, given)
      {
        var h :| h in rest;
        assert top - (rest - {h}) == top - rest + {h};
        ReadOne(w, objects, top - rest, failed, h);
        var before := later;
        if IsDir(h) && h !in failed && h in objects {
          var entries := w.parse(objects[h]);
          if entries.None? {
            assert h in top && Entries(w, objects, h).None?;
            return false, nested, later;
          }
          later := OfferEntries(later, entries.value, SourcesOf(later, h));
          nested := nested + (set e | e in entries.value && e != "");
          AddEntriesAddsAll(before, entries.value, SourcesOf(before, h), given);
        }
        SharesGrows(w, objects, top - rest, failed, h, sources, before, later);
        rest := rest - {h};
      }
      assert top - rest == top;
      readable := true;
    }

    /** The whole fetch; `f` is its account. */
    method FetchDependencies(items: seq<Item>, listed: seq<(Hash, seq<Source>)>, first: Peers, second: Peers)
      returns (r: Result, ghost f: Fetch)
      modifies this
      ensures IsFetch(f) && f.w == w && f.deps == Normalize(items)
      ensures f.before == old(objects) && f.after == objects && f.result == r
      ensures f.sources == AddDeps(AddListed(map[], listed), f.deps)
      ensures r.Result? ==> Shares(w, f.mid, Top(f.deps), f.failed, f.sources, f.laterSources)
      ensures FromGiven(f.sources, Given(listed, f.deps)) && FromGiven(f.laterSources, Given(listed, f.deps))
    {
      var deps := NormalizeAll(items);
      var top := TopLevel(deps);
      var sources := MergeSources(listed, deps);
      ghost var given := Given(listed, deps);
      SourcesAreGiven(listed, deps);
      ghost var before := objects;
      var failed := DownloadAll(top, sources, first);
      ghost var mid := objects;
      var readable, nested, later := InspectManifests(top, failed, sources, given);
      if !readable {
        r := Raised;
        f := Fetch(w, deps, first, second, sources, sources, before, mid, mid, {}, failed, {}, r);
        return;
      }
      var nestedFailed := DownloadAll(nested, later, second);
      var missing := CollectMissing(deps, failed + nestedFailed);
      r := Result(missing == [] && failed + nestedFailed == {}, missing, failed + nestedFailed);
      f := Fetch(w, deps, first, second, sources, later, before, mid, objects, nested, failed, nestedFailed, r);
      if failed + nestedFailed == {} { NoneMissing(w, objects, {}, deps); }
    }

    method CollectMissing(deps: seq<Dep>, failed: set<Hash>) returns (missing: seq<string>)
      ensures missing == MissingDeps(w, objects, failed, deps)
    {
      missing := [];
      for i := 0 to |deps|
        invariant missing == MissingDeps(w, objects, failed, deps[..i])
      {
        assert deps[..i + 1][..i] == deps[..i];
        var d := deps[i];
        if IsMissing(w, objects, failed, d) && Identifier(d) !in missing { missing := missing + [Identifier(d)]; }
      }
      assert deps[..|deps|] == deps;
    }
  }
}
