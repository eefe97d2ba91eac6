/** Which DVC caches the garbage collector takes (src/runner/gc_orchestrator.py). Workspaces of one
    repository share their cache: tier 3 spares it while one of them is in use, tier 5 does not
    ask, and the cache goes with the directory. */
module GcCaches {
  import opened Prelude
  import opened TieredGc
  import opened GcSafety

  lemma {:induction false} CachesStay(d: Disk, log: seq<Action>, works: Action -> bool)
    requires forall a :: a in log ==> !a.DvcCache? && !a.RemoveWorkspace?
    ensures Effects(d, log, works).caches == d.caches
  {
    if log != [] { CachesStay(d, log[..|log| - 1], works); }
  }

  /** Tier 3 takes the caches of the repositories that are not in use. */
  lemma {:induction false} UnusedCachesGone(w: World, d: Disk, caches: set<Name>, el: seq<Name>,
                                            works: Action -> bool, q: Name)
    requires Succeeds(works)
    ensures q in Effects(d, Tier3(w, caches, el), works).caches <==>
            q in d.caches && !(q in el && q in caches && !RepoInUse(w, w.key(q)))
  {
    if el != [] {
      var front, p := el[..|el| - 1], el[|el| - 1];
      assert el == front + [p];
      UnusedCachesGone(w, d, caches, front, works, q);
      var before := Tier3(w, caches, front);
      if !RepoInUse(w, w.key(p)) && p in caches {
        assert (before + [DvcCache(p)])[..|before|] == before;
      } else {
        assert before + [] == before;
      }
    }
  }

  /** Tier 5 takes each cache that lies in a removed directory, whatever uses it. `now` is the disk
      on which the workspaces chosen on `d` are removed. */
  lemma {:induction false} WorkspaceCachesGone(d: Disk, now: Disk, el: seq<Name>, works: Action -> bool, q: Name)
    requires Succeeds(works)
    ensures q in Effects(now, Tier5(d, el, works), works).caches <==>
            q in now.caches && forall p :: p in el && p in d.dirs ==> !Under(q, p)
  {
    if el != [] {
      var front, p := el[..|el| - 1], el[|el| - 1];
      assert el == front + [p];
      WorkspaceCachesGone(d, now, front, works, q);
      WorkspacesGone(d, front, works, p);
      var before := Tier5(d, front, works);
      if p in Effects(d, before, works).dirs {
        assert (before + [RemoveWorkspace(p)])[..|before|] == before;
      } else {
        assert before + [] == before;
        forall r | r in front && r in d.dirs && Under(p, r) && Under(q, p) ensures Under(q, r) {
        }
      }
    }
  }

  /** What the first four tiers leave of the caches. */
  lemma CachesAfterTier4(w: World, d: Disk, images: seq<Image>, el: seq<Name>, works: Action -> bool, q: Name)
    requires Succeeds(works)
    ensures var first := [Prune] + Tier1(d.dirs, el) + Tier2(el) + Tier3(w, d.caches, el) + Tier4(images);
            q in Effects(d, first, works).caches <==> q in d.caches && !(q in el && !RepoInUse(w, w.key(q)))
  {
    var before := [Prune] + Tier1(d.dirs, el) + Tier2(el);
    forall a | a in before ensures !a.DvcCache? && !a.RemoveWorkspace? { Tier1Names(d.dirs, el, a); }
    CachesStay(d, before, works);
    var mid := Effects(d, before, works);
    EffectsAppend(d, before, Tier3(w, d.caches, el), works);
    UnusedCachesGone(w, mid, d.caches, el, works, q);
    EffectsAppend(d, before + Tier3(w, d.caches, el), Tier4(images), works);
    CachesStay(Effects(mid, Tier3(w, d.caches, el), works), Tier4(images), works);
  }

  /** An eligible project whose directory exists contains the project. */
  predicate GoesWithWorkspace(w: World, d: Disk, q: Name) {
    exists p :: p in w.order && Eligible(w, p) && p in d.dirs && Under(q, p)
  }

  /** After the whole plan a cache is left if and only if it was there, tier 3 does not take it,
      and no removed workspace contains it. */
  lemma CacheSurvivesExactly(w: World, d: Disk, images: seq<Image>, works: Action -> bool, q: Name)
    requires Succeeds(works)
    ensures q in Effects(d, Plan(w, d, images, works), works).caches <==>
            && q in d.caches
            && !(q in w.order && Eligible(w, q) && !RepoInUse(w, w.key(q)))
            && !GoesWithWorkspace(w, d, q)
  {
    var el := Collect(w, w.order);
    if el == [] {
      CachesStay(d, [Prune], works);
      assert forall p :: p in w.order && Eligible(w, p) ==> p in el;
    } else {
      var first := [Prune] + Tier1(d.dirs, el) + Tier2(el) + Tier3(w, d.caches, el) + Tier4(images);
      CachesAfterTier4(w, d, images, el, works, q);
      EffectsAppend(d, first, Tier5(d, el, works), works);
      WorkspaceCachesGone(d, Effects(d, first, works), el, works, q);
    }
  }

  // ---------------------------------------------------------------- the promise

  /** A cache of a repository in use is never taken. */
  ghost predicate KeepsUsedCaches(w: World, d: Disk, images: seq<Image>, works: Action -> bool) {
    forall q :: q in d.caches && RepoInUse(w, w.key(q)) ==> q in Effects(d, Plan(w, d, images, works), works).caches
  }

  /** That is so if and only if no eligible workspace on disk contains such a cache. */
  lemma UsedCachesAreKeptExactly(w: World, d: Disk, images: seq<Image>, works: Action -> bool)
    requires Succeeds(works)
    ensures KeepsUsedCaches(w, d, images, works) <==>
            !exists q :: q in d.caches && RepoInUse(w, w.key(q)) && GoesWithWorkspace(w, d, q)
  {
    forall q ensures q in d.caches && RepoInUse(w, w.key(q)) ==>
              (q in Effects(d, Plan(w, d, images, works), works).caches <==> !GoesWithWorkspace(w, d, q))
    {
      CacheSurvivesExactly(w, d, images, works, q);
    }
  }

  /** Two workspaces of a repository, the first idle and long unused, the second running. */
  function SharedRepository(idle: Name, running: Name, repo: string): World {
    World(map[idle := Project(Idle, 0), running := Project(Running, 100)], [idle, running], [], 1, 100,
          (n: Name) => repo)
  }

  /** The idle workspace is eligible although its repository is in use, so the plan takes the cache
      that the running one uses. */
  lemma RunningWorkspaceLosesCache(idle: Name, running: Name, repo: string, images: seq<Image>, works: Action -> bool)
    requires Succeeds(works) && ValidName(idle) && idle != running
    ensures var w, d := SharedRepository(idle, running, repo), Disk({idle, running}, {idle}, {});
            && Protected(w, running, w.registry[running]) && RepoInUse(w, w.key(idle))
            && idle !in Effects(d, Plan(w, d, images, works), works).caches
  {
    var w, d := SharedRepository(idle, running, repo), Disk({idle, running}, {idle}, {});
    assert Protected(w, running, w.registry[running]) && w.key(running) == repo;
    assert Eligible(w, idle) && idle in w.order && Under(idle, idle);
    CacheSurvivesExactly(w, d, images, works, idle);
  }
}
