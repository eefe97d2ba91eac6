/** What a fetch does for the dependencies as they are given to it: bare hashes and records, of
    which only stage outputs are fetched (src/runner/fetch_cas_dependencies.py). */
module CasItems {
  import opened Prelude
  import opened CasFetch
  import opened CasReport
  import opened CasStore

  /** A bare hash, or a record of a stage output. */
  predicate Wanted(i: Item) {
    i.Bare? || i.stageOutput
  }

  /** The dependency of a wanted item: its path, hash and sources, and its parent if it names one. */
  predicate Describes(d: Dep, i: Item) {
    && d.md5 == i.md5
    && match i
       case Bare(_) => d.path == "" && d.sources == [] && d.parent.None?
       case Item(path, _, sources, parent, _) =>
         && d.path == path && d.sources == sources
         && (parent == "" ==> d.parent.None?) && (parent != "" ==> d.parent == Some(parent))
  }

  ghost predicate HasItem(items: seq<Item>, d: Dep) {
    exists i :: i in items && Wanted(i) && Describes(d, i)
  }

  function DepOf(i: Item): Dep {
    match i
    case Bare(h) => Dep("", h, [], None)
    case Item(path, h, sources, parent, _) => Dep(path, h, sources, if parent == "" then None else Some(parent))
  }

  lemma DescribesOne(d: Dep, i: Item)
    ensures Describes(d, i) <==> d == DepOf(i)
  {
  }

  /** The dependencies are those of the wanted items, no more and no fewer. */
  lemma {:induction false} DepsAreWantedItems(items: seq<Item>, d: Dep)
    ensures d in Normalize(items) <==> HasItem(items, d)
  {
    if items != [] {
      var front, last := items[..|items| - 1], items[|items| - 1];
      assert items == front + [last];
      DepsAreWantedItems(front, d);
      DescribesOne(d, last);
      assert Normalize(items) == Normalize(front) + if Wanted(last) then [DepOf(last)] else [];
      assert HasItem(items, d) <==> HasItem(front, d) || (Wanted(last) && Describes(d, last));
    }
  }

  lemma ItemHasDep(items: seq<Item>, i: Item)
    requires i in items && Wanted(i)
    ensures DepOf(i) in Normalize(items)
  {
    assert Describes(DepOf(i), i);
    DepsAreWantedItems(items, DepOf(i));
  }

  /** The item's hash, its parent manifest, and, if the hash is that of a manifest, each of the
      manifest's entries. */
  ghost predicate Names(w: World, objects: Objects, i: Item, h: Hash) {
    || h == i.md5
    || (i.Item? && i.parent != "" && h == i.parent)
    || (exists digest :: i.md5 == digest + ".dir" && i.md5 in objects
          && w.parse(objects[i.md5]).Some? && h in w.parse(objects[i.md5]).value)
  }

  lemma DirSuffix(h: Hash)
    ensures IsDir(h) <==> exists digest :: h == digest + ".dir"
  {
    if IsDir(h) { assert h == h[..|h| - 4] + ".dir"; }
    forall digest | h == digest + ".dir" ensures IsDir(h) { assert h[|h| - 4..] == ".dir"; }
  }

  /** A fetch that succeeds leaves, for every wanted item, its hash, its parent manifest and the
      entries of its manifest in the cache, each with content that matches its name. */
  lemma SuccessFetchesItems(f: Fetch, items: seq<Item>, i: Item, h: Hash)
    requires IsFetch(f) && f.deps == Normalize(items) && f.result.Result? && f.result.success
    requires i in items && Wanted(i) && h != "" && Names(f.w, f.after, i, h)
    ensures h in f.after && f.w.md5(f.after[h]) == Expected(h)
  {
    ItemHasDep(items, i);
    SuccessIsComplete(f);
    DirSuffix(i.md5);
    assert i.md5 != "" ==> i.md5 in Top(f.deps);
    assert i.Item? && i.parent != "" ==> i.parent in Top(f.deps);
    if h != i.md5 && !(i.Item? && i.parent != "" && h == i.parent) {
      assert EntriesValid(f.w, f.after, i.md5);
    }
  }

  /** A fetch that ends with a report names exactly the wanted items of which a hash failed, by path
      or, without one, by hash. */
  lemma ReportNamesItemsExactly(f: Fetch, items: seq<Item>, x: string)
    requires IsFetch(f) && f.deps == Normalize(items) && f.result.Result?
    ensures x in f.result.missingDeps <==>
            exists i :: i in items && Wanted(i) && IsBlamed(f, i)
                     && x == if i.Item? && i.path != "" then i.path else i.md5
  {
    if x in f.result.missingDeps {
      var d :| d in f.deps && IsMissing(f.w, f.after, f.result.missingHashes, d) && x == Identifier(d);
      DepsAreWantedItems(items, d);
      var i :| i in items && Wanted(i) && Describes(d, i);
      BlameIsMissing(f, i, d);
    }
    forall i | i in items && Wanted(i) && IsBlamed(f, i)
      ensures (if i.Item? && i.path != "" then i.path else i.md5) in f.result.missingDeps
    {
      ItemHasDep(items, i);
      BlameIsMissing(f, i, DepOf(i));
      assert Identifier(DepOf(i)) in f.result.missingDeps;
    }
  }

  ghost predicate IsBlamed(f: Fetch, i: Item)
    requires f.result.Result?
  {
    exists h :: h in f.result.missingHashes && Names(f.w, f.after, i, h)
  }

  lemma BlameIsMissing(f: Fetch, i: Item, d: Dep)
    requires f.result.Result? && Wanted(i) && Describes(d, i)
    ensures IsMissing(f.w, f.after, f.result.missingHashes, d) <==> IsBlamed(f, i)
  {
    DirSuffix(i.md5);
    if IsMissing(f.w, f.after, f.result.missingHashes, d) {
      if d.md5 in f.result.missingHashes {
        assert Names(f.w, f.after, i, d.md5);
      } else if d.parent.Some? && d.parent.value in f.result.missingHashes {
        assert Names(f.w, f.after, i, d.parent.value);
      } else {
        var e :| e in Entries(f.w, f.after, d.md5).value && e in f.result.missingHashes;
        assert Names(f.w, f.after, i, e);
      }
    }
  }

  // ---------------------------------------------------------------- who is asked

  /** The caller's list and each wanted item's sources are asked for the hash they are given for;
      sources that come with an item are asked for its parent manifest too, and those that the
      caller lists for the manifest also for the item. */
  lemma GivenSourcesAreAsked(listed: seq<(Hash, seq<Source>)>, items: seq<Item>, i: Item, u: Source)
    requires i in items && Wanted(i)
    ensures var asked := AddDeps(AddListed(map[], listed), Normalize(items));
            && (forall h, urls :: (h, urls) in listed && u in urls ==> u in SourcesOf(asked, h))
            && (i.Item? && u in i.sources ==> u in SourcesOf(asked, i.md5))
            && (i.Item? && i.parent != "" && u in i.sources ==> u in SourcesOf(asked, i.parent))
            && (i.Item? && i.parent != "" && (exists urls :: (i.parent, urls) in listed && u in urls) ==>
                  u in SourcesOf(asked, i.md5))
  {
    var first := AddListed(map[], listed);
    var deps := Normalize(items);
    ItemHasDep(items, i);
    SourcesAreGiven(listed, deps);
    ListedAreOffered(listed, u);
    ListedAreGiven(listed, Given(listed, deps));
    MergedAreGiven(first, deps, Given(listed, deps));
    if DepOf(i).parent.Some? { MergedAreShared(first, deps, Given(listed, deps), DepOf(i), u); }
  }
}
