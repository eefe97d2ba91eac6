/** Exactly which actions the garbage collector plans, in which order, and for which names
    (src/runner/gc_orchestrator.py). */
module GcPlan {
  import opened Prelude
  import opened TieredGc
  import opened GcSafety

  // ---------------------------------------------------------------- who may be taken from

  /** In use: running, mentioned by docker, or executed within the window. */
  ghost predicate InUse(w: World, n: Name)
    requires n in w.registry
  {
    || w.registry[n].status.Running?
    || w.now - w.registry[n].last < w.window
    || exists info :: info in w.active &&
         (Contains(info, "cluster-ci-home-" + Sanitize(n)) || Contains(info, n) || Contains(info, Sanitize(n)))
  }

  /** A registered project that is idle and not in use, and whose name is accepted. */
  ghost predicate Candidate(w: World, n: Name) {
    n in w.order && n in w.registry && ValidName(n) && w.registry[n].status.Idle? && !InUse(w, n)
  }

  lemma InUseIsProtected(w: World, n: Name)
    requires n in w.registry
    ensures InUse(w, n) <==> Protected(w, n, w.registry[n])
  {
  }

  lemma CandidatesAreCollected(w: World, n: Name)
    ensures n in Collect(w, w.order) <==> Candidate(w, n)
  {
    if n in w.registry { InUseIsProtected(w, n); }
  }

  /** The repository of the project has no workspace in use. */
  ghost predicate RepositoryUnused(w: World, n: Name) {
    forall q :: q in w.registry && w.key(q) == w.key(n) ==> !InUse(w, q)
  }

  lemma RepositoryUnusedMeans(w: World, n: Name)
    ensures RepositoryUnused(w, n) <==> !RepoInUse(w, w.key(n))
  {
    forall q | q in w.registry ensures InUse(w, q) <==> Protected(w, q, w.registry[q]) { InUseIsProtected(w, q); }
  }

  /** The planned actions: the prune; history, temporary files and home volumes of every candidate,
      the first two if its directory exists; the caches of candidates whose repository is unused; the
      unused images if there is a candidate at all; and workspaces of candidates. */
  lemma PlanActionsExactly(w: World, d: Disk, images: seq<Image>, works: Action -> bool, a: Action)
    ensures !a.RemoveWorkspace? ==>
              (a in Plan(w, d, images, works) <==>
               match a
               case Prune => true
               case History(n) => Candidate(w, n) && n in d.dirs
               case TempFiles(n) => Candidate(w, n) && n in d.dirs
               case HomeVolumes(n) => Candidate(w, n)
               case DvcCache(n) => Candidate(w, n) && n in d.caches && RepositoryUnused(w, n)
               case RemoveImage(i) => i in images && exists n :: Candidate(w, n)
               case _ => true)
    ensures a.RemoveWorkspace? && a in Plan(w, d, images, works) ==> Candidate(w, a.n) && a.n in d.dirs
  {
    var el := Collect(w, w.order);
    Tier1Names(d.dirs, el, a);
    Tier2Names(el, a);
    Tier3Names(w, d.caches, el, a);
    ImageActions(images, a);
    Tier5InDirs(d, el, works);
    forall n ensures n in el <==> Candidate(w, n) { CandidatesAreCollected(w, n); }
    if a.DvcCache? { RepositoryUnusedMeans(w, a.n); }
    if el != [] { assert el[0] in el; }
  }

  lemma ImageActions(images: seq<Image>, a: Action)
    ensures a in Tier4(images) <==> a.RemoveImage? && a.i in images
  {
    if a.RemoveImage? && a.i in images {
      var k :| 0 <= k < |images| && images[k] == a.i;
      assert Tier4(images)[k] == a;
    }
  }

  lemma {:induction false} DirsShrink(d: Disk, log: seq<Action>, works: Action -> bool)
    ensures Effects(d, log, works).dirs <= d.dirs
  {
    if log != [] { DirsShrink(d, log[..|log| - 1], works); }
  }

  lemma {:induction false} Tier5InDirs(d: Disk, el: seq<Name>, works: Action -> bool)
    ensures forall a :: a in Tier5(d, el, works) ==> a.n in d.dirs
  {
    if el != [] {
      Tier5InDirs(d, el[..|el| - 1], works);
      DirsShrink(d, Tier5(d, el[..|el| - 1], works), works);
    }
  }

  // ---------------------------------------------------------------- the order

  /** The tier of an action. */
  function Rank(a: Action): nat {
    match a
    case Prune => 0
    case History(_) => 1
    case TempFiles(_) => 1
    case HomeVolumes(_) => 2
    case DvcCache(_) => 3
    case RemoveImage(_) => 4
    case RemoveWorkspace(_) => 5
  }

  /** An earlier tier, or the same tier and a project that was not used later. */
  predicate NotLater(w: World, a: Action, b: Action) {
    || Rank(a) < Rank(b)
    || (Rank(a) == Rank(b)
        && (Rank(a) !in {0, 4} && a.n in w.registry && b.n in w.registry ==>
              w.registry[a.n].last <= w.registry[b.n].last))
  }

  ghost predicate Sorted(w: World, log: seq<Action>) {
    forall i, j :: 0 <= i < j < |log| ==> NotLater(w, log[i], log[j])
  }

  lemma SortedTogether(w: World, a: seq<Action>, b: seq<Action>)
    requires Sorted(w, a) && Sorted(w, b) && forall x, y :: x in a && y in b ==> NotLater(w, x, y)
    ensures Sorted(w, a + b)
  {
  }

  ghost predicate OldestFirst(w: World, el: seq<Name>) {
    forall i, j :: 0 <= i < j < |el| && el[i] in w.registry && el[j] in w.registry ==>
      w.registry[el[i]].last <= w.registry[el[j]].last
  }

  lemma CollectedOldestFirst(w: World)
    requires NoDup(w.order)
    ensures OldestFirst(w, Collect(w, w.order))
  {
    CollectSorts(w, w.order);
    var el := Collect(w, w.order);
    forall i, j | 0 <= i < j < |el| && el[i] in w.registry && el[j] in w.registry
      ensures w.registry[el[i]].last <= w.registry[el[j]].last
    {
      assert Age(w, el[i]) <= Age(w, el[j]);
    }
  }

  /** Actions of one tier on the projects before the last, and then on the last one. */
  lemma TierGrows(w: World, el: seq<Name>, front: seq<Action>, more: seq<Action>, rank: nat)
    requires el != [] && OldestFirst(w, el) && Sorted(w, front) && rank !in {0, 4}
    requires forall a :: a in front ==> Rank(a) == rank && a.n in el[..|el| - 1]
    requires forall a :: a in more ==> Rank(a) == rank && a.n == el[|el| - 1]
    ensures Sorted(w, front + more)
  {
    forall x, y | x in front && y in more ensures NotLater(w, x, y) {
      var i :| 0 <= i < |el| - 1 && el[i] == x.n;
      assert el[|el| - 1] == y.n;
    }
    SortedTogether(w, front, more);
  }

  lemma {:induction false} Tier1Sorted(w: World, dirs: set<Name>, el: seq<Name>)
    requires OldestFirst(w, el)
    ensures Sorted(w, Tier1(dirs, el)) && forall a :: a in Tier1(dirs, el) ==> Rank(a) == 1 && a.n in el
  {
    if el != [] {
      var front, p := el[..|el| - 1], el[|el| - 1];
      Tier1Sorted(w, dirs, front);
      TierGrows(w, el, Tier1(dirs, front), if p in dirs then [History(p), TempFiles(p)] else [], 1);
    }
  }

  lemma {:induction false} Tier3Sorted(w: World, caches: set<Name>, el: seq<Name>)
    requires OldestFirst(w, el)
    ensures Sorted(w, Tier3(w, caches, el)) && forall a :: a in Tier3(w, caches, el) ==> Rank(a) == 3 && a.n in el
  {
    if el != [] {
      var front, p := el[..|el| - 1], el[|el| - 1];
      Tier3Sorted(w, caches, front);
      TierGrows(w, el, Tier3(w, caches, front),
                if !RepoInUse(w, w.key(p)) && p in caches then [DvcCache(p)] else [], 3);
    }
  }

  lemma {:induction false} Tier5Sorted(w: World, d: Disk, el: seq<Name>, works: Action -> bool)
    requires OldestFirst(w, el)
    ensures Sorted(w, Tier5(d, el, works))
  {
    if el != [] {
      var front, p := el[..|el| - 1], el[|el| - 1];
      Tier5Sorted(w, d, front, works);
      var before := Tier5(d, front, works);
      TierGrows(w, el, before, if p in Effects(d, before, works).dirs then [RemoveWorkspace(p)] else [], 5);
    }
  }

  lemma MiddleSorted(w: World, el: seq<Name>, images: seq<Image>)
    requires OldestFirst(w, el)
    ensures Sorted(w, Tier2(el)) && (forall a :: a in Tier2(el) ==> Rank(a) == 2)
    ensures Sorted(w, Tier4(images)) && (forall a :: a in Tier4(images) ==> Rank(a) == 4)
  {
  }

  lemma HigherRanks(w: World, a: seq<Action>, b: seq<Action>, rank: nat)
    requires Sorted(w, a) && Sorted(w, b)
    requires (forall x :: x in a ==> Rank(x) < rank) && (forall y :: y in b ==> Rank(y) == rank)
    ensures Sorted(w, a + b) && forall x :: x in a + b ==> Rank(x) < rank + 1
  {
    SortedTogether(w, a, b);
  }

  /** Of any two planned actions the first is of an earlier tier, or of the same tier and on a
      project that was executed no later than the other. */
  lemma PlanIsSorted(w: World, d: Disk, images: seq<Image>, works: Action -> bool)
    requires NoDup(w.order)
    ensures Sorted(w, Plan(w, d, images, works))
  {
    var el := Collect(w, w.order);
    CollectedOldestFirst(w);
    Tier1Sorted(w, d.dirs, el);
    Tier3Sorted(w, d.caches, el);
    MiddleSorted(w, el, images);
    Tier5Sorted(w, d, el, works);
    var one := [Prune] + Tier1(d.dirs, el);
    HigherRanks(w, [Prune], Tier1(d.dirs, el), 1);
    HigherRanks(w, one, Tier2(el), 2);
    HigherRanks(w, one + Tier2(el), Tier3(w, d.caches, el), 3);
    HigherRanks(w, one + Tier2(el) + Tier3(w, d.caches, el), Tier4(images), 4);
    HigherRanks(w, one + Tier2(el) + Tier3(w, d.caches, el) + Tier4(images), Tier5(d, el, works), 5);
  }

  // ---------------------------------------------------------------- projects of the same age

  ghost predicate Precedes(names: seq<Name>, p: Name, q: Name) {
    exists i, j :: 0 <= i < j < |names| && names[i] == p && names[j] == q
  }

  /** Projects of the same age are in registry order. */
  ghost predicate Stable(w: World, el: seq<Name>, names: seq<Name>) {
    forall i, j :: 0 <= i < j < |el| && Age(w, el[i]) == Age(w, el[j]) ==> Precedes(names, el[i], el[j])
  }

  lemma LaterInNames(names: seq<Name>, last: Name, p: Name, q: Name)
    requires Precedes(names, p, q) || (p in names && q == last)
    ensures Precedes(names + [last], p, q)
  {
    var all := names + [last];
    if Precedes(names, p, q) {
      var i, j :| 0 <= i < j < |names| && names[i] == p && names[j] == q;
      assert all[i] == p && all[j] == q;
    } else {
      var i :| 0 <= i < |names| && names[i] == p;
      assert all[i] == p && all[|names|] == q;
    }
  }

  lemma StableLater(w: World, el: seq<Name>, names: seq<Name>, last: Name)
    requires Stable(w, el, names)
    ensures Stable(w, el, names + [last])
  {
    forall i, j | 0 <= i < j < |el| && Age(w, el[i]) == Age(w, el[j]) ensures Precedes(names + [last], el[i], el[j]) {
      LaterInNames(names, last, el[i], el[j]);
    }
  }

  /** A project is put behind those of its age. */
  lemma {:induction false} InsertBehind(w: World, n: Name, el: seq<Name>, names: seq<Name>)
    requires SortedByAge(w, el) && Stable(w, el, names) && forall p :: p in el ==> p in names
    ensures Stable(w, Insert(w, n, el), names + [n])
  {
    StableLater(w, el, names, n);
    var r := Insert(w, n, el);
    if el == [] || Age(w, el[|el| - 1]) <= Age(w, n) {
      forall i, j | 0 <= i < j < |r| && Age(w, r[i]) == Age(w, r[j]) ensures Precedes(names + [n], r[i], r[j]) {
        if j == |el| { LaterInNames(names, n, r[i], n); }
      }
    } else {
      var front, last := el[..|el| - 1], el[|el| - 1];
      InsertBehind(w, n, front, names);
      forall i, j | 0 <= i < j < |r| && Age(w, r[i]) == Age(w, r[j]) ensures Precedes(names + [n], r[i], r[j]) {
        if j == |r| - 1 {
          assert r[i] in Insert(w, n, front) && r[i] != n;
          var k :| 0 <= k < |front| && front[k] == r[i];
          assert el[k] == r[i] && el[|el| - 1] == last;
        }
      }
    }
  }

  /** The eligible projects of the same age come in the order of the registry. */
  lemma {:induction false} CollectIsStable(w: World, names: seq<Name>)
    requires NoDup(names)
    ensures Stable(w, Collect(w, names), names)
  {
    if names != [] {
      var front, last := names[..|names| - 1], names[|names| - 1];
      assert names == front + [last];
      CollectIsStable(w, front);
      CollectSorts(w, front);
      StableLater(w, Collect(w, front), front, last);
      InsertBehind(w, last, Collect(w, front), front);
    }
  }

  // ---------------------------------------------------------------- what a name takes

  /** Slashes become dashes, and nothing else changes. */
  lemma {:induction false} SanitizeReplaces(name: string)
    ensures forall i :: 0 <= i < |name| ==> Sanitize(name)[i] == if name[i] == '/' then '-' else name[i]
  {
    if name != "" { SanitizeReplaces(name[..|name| - 1]); }
  }

  predicate Continues(s: string, start: string, rest: string) {
    s == start + rest
  }

  /** The directory itself and what lies in it; the base volume and those that continue it with a
      dash. */
  lemma TakenExactly(q: Name, p: Name, v: string)
    ensures Under(q, p) <==> q == p || exists rest :: Continues(q, p + "/", rest)
    ensures TakesVolume(p, v) <==>
            || v == "cluster-ci-home-" + Sanitize(p)
            || exists rest :: Continues(v, "cluster-ci-home-" + Sanitize(p) + "-", rest)
  {
    StartsExactly(q, p + "/");
    StartsExactly(v, BaseVolume(p) + "-");
  }

  lemma StartsExactly(s: string, start: string)
    ensures StartsWith(s, start) <==> exists rest :: Continues(s, start, rest)
  {
    if StartsWith(s, start) { assert Continues(s, start, s[|start|..]); }
    forall rest | Continues(s, start, rest) ensures StartsWith(s, start) { assert s[..|start|] == start; }
  }
}
