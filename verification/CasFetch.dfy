/** Fetching content-addressed objects from peers that nobody trusts
    (src/runner/fetch_cas_dependencies.py): one object, and the objects of a node. */
module CasFetch {
  import opened Prelude

  newtype Byte = x: int | 0 <= x < 256

  type Hash = string
  type Source = string
  type Content = seq<Byte>
  type Objects = map<Hash, Content>
  type Sources = map<Hash, seq<Source>>

  /** What a candidate URL answers: a body with status 200, or anything else. */
  datatype Reply = Broken | Body(content: Content)

  /** The answers of a source's candidate URLs for a hash, in order. */
  type Peers = (Source, Hash) -> seq<Reply>

  /** The hash function, the manifest parser (None if it returns no list), and whether a request
      may be made at all: a private job needs a cluster token. */
  datatype World = World(md5: Content -> Hash, parse: Content -> Option<seq<Hash>>, authorised: bool)

  /** Digests are 32 hexadecimal digits long. */
  ghost predicate Digests(w: World) {
    forall c :: |w.md5(c)| == 32
  }

  // ---------------------------------------------------------------- names

  predicate StartsWithDir(h: string) {
    |h| >= 4 && h[..4] == ".dir"
  }

  predicate IsDir(h: Hash) {
    |h| >= 4 && h[|h| - 4..] == ".dir"
  }

  /** The digest a name stands for: the name without its ".dir" parts. */
  function Expected(h: Hash): Hash {
    if h == "" then ""
    else if StartsWithDir(h) then Expected(h[4..])
    else [h[0]] + Expected(h[1..])
  }

  lemma {:induction false} ExpectedOfPlain(h: Hash)
    requires '.' !in h
    ensures Expected(h) == h && Expected(h + ".dir") == h
  {
    if h == "" {
      assert Expected(".dir"[4..]) == "";
      assert h + ".dir" == ".dir";
    } else {
      ExpectedOfPlain(h[1..]);
      assert (h + ".dir")[1..] == h[1..] + ".dir" && (h + ".dir")[0] == h[0];
    }
  }

  lemma {:induction false} ExpectedIsShorter(h: Hash)
    ensures |Expected(h)| <= |h|
  {
    if h != "" {
      if StartsWithDir(h) { ExpectedIsShorter(h[4..]); } else { ExpectedIsShorter(h[1..]); }
    }
  }

  // ---------------------------------------------------------------- one object

  /** The content hashes to the name. */
  predicate Matches(w: World, h: Hash, c: Content) {
    w.md5(c) == Expected(h)
  }

  predicate Valid(w: World, objects: Objects, h: Hash) {
    h in objects && Matches(w, h, objects[h])
  }

  /** A name needs a directory part of two characters and a file part. */
  predicate IsName(h: Hash) {
    |h| > 2
  }

  function FirstMatch(w: World, h: Hash, replies: seq<Reply>): (r: Option<Content>)
    ensures r.Some? ==> Matches(w, h, r.value) && Body(r.value) in replies
    ensures r.None? ==> forall c :: Body(c) in replies ==> !Matches(w, h, c)
  {
    if replies == [] then None
    else
      var front := FirstMatch(w, h, replies[..|replies| - 1]);
      var last := replies[|replies| - 1];
      assert replies == replies[..|replies| - 1] + [last];
      if front.Some? then front
      else if last.Body? && Matches(w, h, last.content) then Some(last.content)
      else None
  }

  /** All answers, source after source. */
  function Answers(peers: Peers, h: Hash, sources: seq<Source>): seq<Reply> {
    if sources == [] then []
    else Answers(peers, h, sources[..|sources| - 1]) + peers(sources[|sources| - 1], h)
  }

  /** The object under a name after a download of that name, if there is one. */
  function Fetched(w: World, objects: Objects, h: Hash, replies: seq<Reply>): Option<Content> {
    if |h| < 2 || Valid(w, objects, h) then Lookup(objects, h)
    else if w.authorised && IsName(h) then FirstMatch(w, h, replies)
    else None
  }

  predicate Obtains(w: World, objects: Objects, h: Hash, replies: seq<Reply>) {
    |h| >= 2 && (Valid(w, objects, h) || (w.authorised && IsName(h) && FirstMatch(w, h, replies).Some?))
  }

  /** A download succeeds exactly if the object is valid already or some answer matches, and then
      the object is there and valid; otherwise no object that does not match is left. */
  lemma DownloadYieldsMatch(w: World, objects: Objects, h: Hash, replies: seq<Reply>)
    requires |h| >= 2
    ensures Obtains(w, objects, h, replies) <==>
            Valid(w, objects, h) || (w.authorised && IsName(h) && exists c :: Body(c) in replies && Matches(w, h, c))
    ensures Obtains(w, objects, h, replies) <==> Fetched(w, objects, h, replies).Some?
    ensures Fetched(w, objects, h, replies).Some? ==> Matches(w, h, Fetched(w, objects, h, replies).value)
    ensures Valid(w, objects, h) ==> Fetched(w, objects, h, replies) == Some(objects[h])
  {
  }

  // ---------------------------------------------------------------- candidate sources

  function SourcesOf(m: Sources, h: Hash): seq<Source> {
    if h in m then m[h] else []
  }

  function AddSource(m: Sources, h: Hash, u: Source): Sources {
    if u in SourcesOf(m, h) then m else m[h := SourcesOf(m, h) + [u]]
  }

  function AddSources(m: Sources, h: Hash, urls: seq<Source>): Sources {
    if urls == [] then m
    else AddSource(AddSources(m, h, urls[..|urls| - 1]), h, urls[|urls| - 1])
  }

  /** A dependency after normalisation. */
  datatype Dep = Dep(path: string, md5: Hash, sources: seq<Source>, parent: Option<Hash>)

  /** A dependency as given: a bare hash, or a record. */
  datatype Item = Bare(md5: Hash) | Item(path: string, md5: Hash, sources: seq<Source>, parent: Hash, stageOutput: bool)

  function Normalize(items: seq<Item>): seq<Dep> {
    if items == [] then []
    else
      var i := items[|items| - 1];
      Normalize(items[..|items| - 1]) +
      match i
      case Bare(h) => [Dep("", h, [], None)]
      case Item(path, h, sources, parent, stageOutput) =>
        if stageOutput then [Dep(path, h, sources, if parent == "" then None else Some(parent))] else []
  }

  function AddListed(m: Sources, listed: seq<(Hash, seq<Source>)>): Sources {
    if listed == [] then m
    else
      var (h, urls) := listed[|listed| - 1];
      AddSources(AddListed(m, listed[..|listed| - 1]), h, urls)
  }

  /** A dependency's own sources; then it shares with its parent manifest, both ways. */
  function AddDep(m: Sources, d: Dep): Sources {
    var own := AddSources(m, d.md5, d.sources);
    match d.parent
    case None => own
    case Some(p) =>
      var shared := AddSources(own, d.md5, SourcesOf(own, p));
      AddSources(shared, p, SourcesOf(shared, d.md5))
  }

  function AddDeps(m: Sources, deps: seq<Dep>): Sources {
    if deps == [] then m else AddDep(AddDeps(m, deps[..|deps| - 1]), deps[|deps| - 1])
  }

  /** The entries of a manifest get the manifest's sources. */
  function AddEntries(m: Sources, entries: seq<Hash>, urls: seq<Source>): Sources {
    if entries == [] then m
    else
      var before := AddEntries(m, entries[..|entries| - 1], urls);
      var e := entries[|entries| - 1];
      if e == "" then before else AddSources(before, e, urls)
  }

  // ---------------------------------------------------------------- what a fetch needs

  /** The named hashes and the parent manifests. */
  function Top(deps: seq<Dep>): (top: set<Hash>)
    ensures forall h :: h in top <==> exists d :: d in deps && ((d.md5 == h && h != "") || d.parent == Some(h))
  {
    if deps == [] then {}
    else
      var d := deps[|deps| - 1];
      assert deps == deps[..|deps| - 1] + [d];
      Top(deps[..|deps| - 1]) + (if d.md5 != "" then {d.md5} else {})
                              + (if d.parent.Some? then {d.parent.value} else {})
  }

  function Entries(w: World, objects: Objects, h: Hash): Option<seq<Hash>> {
    if h in objects then w.parse(objects[h]) else Some([])
  }

  /** The nonempty entries of the manifests among the hashes that did not fail. */
  ghost predicate IsNested(w: World, objects: Objects, top: set<Hash>, failed: set<Hash>, e: Hash) {
    e != "" && exists h :: ListedIn(w, objects, top, failed, h, e)
  }

  ghost predicate ListedIn(w: World, objects: Objects, top: set<Hash>, failed: set<Hash>, h: Hash, e: Hash) {
    && h in top && h !in failed && IsDir(h)
    && Entries(w, objects, h).Some? && e in Entries(w, objects, h).value
  }

  /** What a batch of downloads does, in whatever order and however concurrently they run. */
  ghost predicate BatchDone(w: World, peers: Peers, sources: Sources, all: set<Hash>,
                            before: Objects, after: Objects, failed: set<Hash>) {
    && (forall h :: h !in all ==> Lookup(after, h) == Lookup(before, h))
    && (forall h :: h in all ==> Lookup(after, h) == Fetched(w, before, h, Answers(peers, h, SourcesOf(sources, h))))
    && (forall h :: h in failed <==> h in all && !Obtains(w, before, h, Answers(peers, h, SourcesOf(sources, h))))
  }

  /** Downloading one more hash extends a batch, because a download looks at its own object only. */
  lemma BatchGrows(w: World, peers: Peers, sources: Sources, all: set<Hash>,
                   before: Objects, mid: Objects, failed: set<Hash>, h: Hash, after: Objects)
    requires BatchDone(w, peers, sources, all, before, mid, failed) && h !in all
    requires forall k :: k != h ==> Lookup(after, k) == Lookup(mid, k)
    requires Lookup(after, h) == Fetched(w, mid, h, Answers(peers, h, SourcesOf(sources, h)))
    ensures var failed' := if Obtains(w, mid, h, Answers(peers, h, SourcesOf(sources, h)))
              then failed else failed + {h};
            BatchDone(w, peers, sources, all + {h}, before, after, failed')
  {
    assert Lookup(mid, h) == Lookup(before, h);
    assert Valid(w, mid, h) == Valid(w, before, h);
  }

  // ---------------------------------------------------------------- what a batch keeps

  /** Every object of the cache is an old one or matches its name. */
  ghost predicate OnlyMatchesWritten(w: World, before: Objects, after: Objects) {
    forall h :: h in after ==> Lookup(before, h) == Some(after[h]) || Valid(w, after, h)
  }

  ghost predicate ValidStay(w: World, before: Objects, after: Objects) {
    forall h :: Valid(w, before, h) ==> Lookup(after, h) == Some(before[h])
  }

  lemma BatchIsSafe(w: World, peers: Peers, sources: Sources, all: set<Hash>, before: Objects, after: Objects,
                    failed: set<Hash>)
    requires BatchDone(w, peers, sources, all, before, after, failed)
    ensures OnlyMatchesWritten(w, before, after) && ValidStay(w, before, after)
    ensures forall h :: h in all && h !in failed ==> Valid(w, after, h)
  {
    forall h | h in after ensures Lookup(before, h) == Some(after[h]) || Valid(w, after, h) {
      if h in all && |h| >= 2 { DownloadYieldsMatch(w, before, h, Answers(peers, h, SourcesOf(sources, h))); }
    }
    forall h | Valid(w, before, h) ensures Lookup(after, h) == Some(before[h]) {
    }
    forall h | h in all && h !in failed ensures Valid(w, after, h) {
      DownloadYieldsMatch(w, before, h, Answers(peers, h, SourcesOf(sources, h)));
    }
  }
}
