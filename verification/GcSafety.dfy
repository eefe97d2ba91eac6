/** What the garbage collector of module TieredGc never takes, and what it takes that it should
    not (src/runner/gc_orchestrator.py). */
module GcSafety {
  import opened Prelude
  import opened TieredGc

  // ---------------------------------------------------------------- who is touched

  lemma {:induction false} Tier1Names(dirs: set<Name>, el: seq<Name>, a: Action)
    ensures a in Tier1(dirs, el) <==> (a.History? || a.TempFiles?) && a.n in el && a.n in dirs
  {
    if el != [] {
      Tier1Names(dirs, el[..|el| - 1], a);
      assert el == el[..|el| - 1] + [el[|el| - 1]];
    }
  }

  lemma {:induction false} Tier3Names(w: World, caches: set<Name>, el: seq<Name>, a: Action)
    ensures a in Tier3(w, caches, el) <==> a.DvcCache? && a.n in el && a.n in caches && !RepoInUse(w, w.key(a.n))
  {
    if el != [] {
      Tier3Names(w, caches, el[..|el| - 1], a);
      assert el == el[..|el| - 1] + [el[|el| - 1]];
    }
  }

  lemma Tier2Names(el: seq<Name>, a: Action)
    ensures a in Tier2(el) <==> a.HomeVolumes? && a.n in el
  {
    if a.HomeVolumes? && a.n in el {
      var i :| 0 <= i < |el| && el[i] == a.n;
      assert Tier2(el)[i] == a;
    }
  }

  lemma Tier4Names(images: seq<Image>, a: Action)
    requires a in Tier4(images)
    ensures a.RemoveImage?
  {
  }

  /** Every action on a project is on an eligible one, and tier 3 acts on a cache only if no workspace
      of its repository is protected. Tier 5 does not ask; see module GcCaches. */
  lemma PlanTouchesEligible(w: World, d: Disk, images: seq<Image>, works: Action -> bool, a: Action)
    requires a in Plan(w, d, images, works)
    ensures a.Prune? || a.RemoveImage? || (a.n in w.order && Eligible(w, a.n))
    ensures a.DvcCache? ==> forall q :: q in w.registry && w.key(q) == w.key(a.n) ==> !Protected(w, q, w.registry[q])
  {
    var el := Collect(w, w.order);
    Tier1Names(d.dirs, el, a);
    Tier2Names(el, a);
    Tier3Names(w, d.caches, el, a);
    if a in Tier4(images) { Tier4Names(images, a); }
  }

  // ---------------------------------------------------------------- docker

  lemma {:induction false} StartIsContained(s: string, part: string, rest: string)
    requires StartsWith(s, part + rest)
    ensures Contains(s, part)
  {
    assert s[0..] == s && (part + rest)[..|part|] == part;
    assert s[..|part|] == s[..|part + rest|][..|part|];
  }

  lemma ContainedAfter(root: string, s: string, part: string)
    requires StartsWith(s, part)
    ensures Contains(root + s, part)
  {
    assert (root + s)[|root|..] == s;
  }

  /** The volumes and the directories that an action takes. */
  predicate TakesMount(root: string, a: Action, mount: string) {
    match a
    case HomeVolumes(p) => TakesVolume(p, mount)
    case RemoveWorkspace(p) => mount == root + p || StartsWith(mount, root + p + "/")
    case DvcCache(p) => StartsWith(mount, root + p + "/.dvc/cache")
    case _ => false
  }

  lemma TakenMountIsSeen(root: string, a: Action, mount: string)
    requires TakesMount(root, a, mount)
    ensures Contains(mount, BaseVolume(a.n)) || Contains(mount, a.n)
  {
    match a
    case HomeVolumes(p) =>
      if mount == BaseVolume(p) {
        assert BaseVolume(p) + "" == BaseVolume(p);
        StartIsContained(mount, BaseVolume(p), "");
      } else {
        StartIsContained(mount, BaseVolume(p), "-");
      }
    case RemoveWorkspace(p) => MountUnder(root, p, mount, if mount == root + p then "" else "/");
    case DvcCache(p) => MountUnder(root, p, mount, "/.dvc/cache");
  }

  lemma MountUnder(root: string, p: Name, mount: string, rest: string)
    requires StartsWith(mount, root + p + rest)
    ensures Contains(mount, p)
  {
    var s := mount[|root|..];
    assert mount == root + s by { assert mount[..|root|] == (root + p + rest)[..|root|] == root; }
    assert StartsWith(s, p) by {
      assert s[..|p|] == mount[|root|..|root| + |p|] == (root + p + rest)[|root|..|root| + |p|] == p;
    }
    ContainedAfter(root, s, p);
  }

  /** No mount that docker reports in full is ever taken, not even under another project's name: it
      makes every project that would take it protected. */
  lemma MountedIsNeverTaken(w: World, d: Disk, images: seq<Image>, works: Action -> bool, root: string, a: Action,
                            mount: string)
    requires a in Plan(w, d, images, works) && mount in w.active
    ensures !TakesMount(root, a, mount)
  {
    if TakesMount(root, a, mount) {
      TakenMountIsSeen(root, a, mount);
      PlanTouchesEligible(w, d, images, works, a);
      assert false;
    }
  }

  // ---------------------------------------------------------------- everything else

  /** A directory or a volume survives a successful run of the whole plan exactly if no eligible
      project takes it. */
  ghost predicate Succeeds(works: Action -> bool) {
    forall a :: works(a)
  }

  lemma {:induction false} WorkspacesGone(d: Disk, el: seq<Name>, works: Action -> bool, q: Name)
    requires Succeeds(works)
    ensures q in Effects(d, Tier5(d, el, works), works).dirs <==>
            q in d.dirs && forall p :: p in el && p in d.dirs ==> !Under(q, p)
  {
    if el != [] {
      var front, p := el[..|el| - 1], el[|el| - 1];
      assert el == front + [p];
      WorkspacesGone(d, front, works, q);
      WorkspacesGone(d, front, works, p);
      var before := Tier5(d, front, works);
      if p in Effects(d, before, works).dirs {
        assert (before + [RemoveWorkspace(p)])[..|before|] == before;
      } else {
        assert before + [] == before;
        forall r | r in front && r in d.dirs && Under(p, r) && Under(q, p) ensures Under(q, r) {
        }
      }
    }
  }

  lemma {:induction false} VolumesGone(d: Disk, el: seq<Name>, works: Action -> bool, v: string)
    requires Succeeds(works)
    ensures v in Effects(d, Tier2(el), works).volumes <==> v in d.volumes && forall p :: p in el ==> !TakesVolume(p, v)
  {
    if el != [] {
      var front := el[..|el| - 1];
      assert el == front + [el[|el| - 1]];
      VolumesGone(d, front, works, v);
      assert Tier2(el)[..|el| - 1] == Tier2(front);
    }
  }

  lemma {:induction false} EffectsAppend(d: Disk, a: seq<Action>, b: seq<Action>, works: Action -> bool)
    ensures Effects(d, a + b, works) == Effects(Effects(d, a, works), b, works)
  {
    if b == [] {
      assert a + b == a;
    } else {
      assert (a + b)[..|a + b| - 1] == a + b[..|b| - 1];
      EffectsAppend(d, a, b[..|b| - 1], works);
    }
  }

  lemma {:induction false} DirsOnly(d: Disk, d': Disk, log: seq<Action>, works: Action -> bool)
    requires d.dirs == d'.dirs
    ensures Effects(d, log, works).dirs == Effects(d', log, works).dirs
  {
    if log != [] { DirsOnly(d, d', log[..|log| - 1], works); }
  }

  lemma {:induction false} VolumesOnly(d: Disk, d': Disk, log: seq<Action>, works: Action -> bool)
    requires d.volumes == d'.volumes
    ensures Effects(d, log, works).volumes == Effects(d', log, works).volumes
  {
    if log != [] { VolumesOnly(d, d', log[..|log| - 1], works); }
  }

  lemma {:induction false} DirsStay(d: Disk, log: seq<Action>, works: Action -> bool)
    requires forall a :: a in log ==> !a.RemoveWorkspace?
    ensures Effects(d, log, works).dirs == d.dirs
  {
    if log != [] { DirsStay(d, log[..|log| - 1], works); }
  }

  lemma {:induction false} VolumesStay(d: Disk, log: seq<Action>, works: Action -> bool)
    requires forall a :: a in log ==> !a.HomeVolumes?
    ensures Effects(d, log, works).volumes == d.volumes
  {
    if log != [] { VolumesStay(d, log[..|log| - 1], works); }
  }

  /** The plan in three parts: what precedes the volumes, the volumes, and what follows them up to
      the workspaces. */
  lemma PlanParts(w: World, d: Disk, images: seq<Image>, works: Action -> bool)
    returns (before: seq<Action>, between: seq<Action>)
    requires Collect(w, w.order) != []
    ensures var el := Collect(w, w.order);
            Plan(w, d, images, works) == before + Tier2(el) + between + Tier5(d, el, works)
    ensures forall a :: a in before || a in between ==> !a.HomeVolumes? && !a.RemoveWorkspace?
  {
    var el := Collect(w, w.order);
    before, between := [Prune] + Tier1(d.dirs, el), Tier3(w, d.caches, el) + Tier4(images);
    assert Plan(w, d, images, works) == before + Tier2(el) + between + Tier5(d, el, works);
    forall a | a in before || a in between ensures !a.HomeVolumes? && !a.RemoveWorkspace? {
      Tier1Names(d.dirs, el, a);
      Tier3Names(w, d.caches, el, a);
    }
  }

  /** After the whole plan: a directory survives exactly if no eligible project's directory
      contains it. */
  lemma DirectorySurvivesExactly(w: World, d: Disk, images: seq<Image>, works: Action -> bool, q: Name)
    requires Succeeds(works)
    ensures q in Effects(d, Plan(w, d, images, works), works).dirs <==>
            q in d.dirs && forall p :: p in w.order && Eligible(w, p) && p in d.dirs ==> !Under(q, p)
  {
    var el := Collect(w, w.order);
    if el == [] {
      DirsStay(d, [Prune], works);
      assert forall p :: p in w.order && Eligible(w, p) ==> p in el;
    } else {
      var before, between := PlanParts(w, d, images, works);
      var first := before + Tier2(el) + between;
      DirsStay(d, first, works);
      EffectsAppend(d, first, Tier5(d, el, works), works);
      DirsOnly(d, Effects(d, first, works), Tier5(d, el, works), works);
      WorkspacesGone(d, el, works, q);
    }
  }

  /** And a volume survives exactly if it does not look like one of an eligible project's. */
  lemma VolumeSurvivesExactly(w: World, d: Disk, images: seq<Image>, works: Action -> bool, v: string)
    requires Succeeds(works)
    ensures v in Effects(d, Plan(w, d, images, works), works).volumes <==>
            v in d.volumes && forall p :: p in w.order && Eligible(w, p) ==> !TakesVolume(p, v)
  {
    var el := Collect(w, w.order);
    if el == [] {
      VolumesStay(d, [Prune], works);
      assert forall p :: p in w.order && Eligible(w, p) ==> p in el;
    } else {
      var before, between := PlanParts(w, d, images, works);
      var rest := between + Tier5(d, el, works);
      assert Plan(w, d, images, works) == before + Tier2(el) + rest;
      EffectsAppend(d, before + Tier2(el), rest, works);
      EffectsAppend(d, before, Tier2(el), works);
      VolumesStay(d, before, works);
      VolumesOnly(d, Effects(d, before, works), Tier2(el), works);
      VolumesStay(Effects(d, before + Tier2(el), works), rest, works);
      VolumesGone(d, el, works, v);
    }
  }

  /** A project whose name continues another's with a slash lies in its directory, and one that
      continues it with a dash has volumes that look like the other's: they go with it, even if the
      longer name is protected because it ran a moment ago. */
  lemma ContinuedNameIsTaken(p: Name, rest: string)
    ensures Under(p + "/" + rest, p)
    ensures TakesVolume(p, BaseVolume(p + "-" + rest)) && TakesVolume(p, BaseVolume(p + "/" + rest))
  {
    ContinuedVolume(p, "-", rest);
    ContinuedVolume(p, "/", rest);
    assert (p + "/" + rest)[..|p| + 1] == p + "/";
  }

  /** So a project whose name continues an eligible one's loses directory and volumes, whether it is
      protected or not. */
  lemma ContinuedProjectIsLost(w: World, d: Disk, images: seq<Image>, works: Action -> bool, p: Name, rest: string)
    requires Succeeds(works) && p in w.order && Eligible(w, p)
    ensures p in d.dirs ==> p + "/" + rest !in Effects(d, Plan(w, d, images, works), works).dirs
    ensures BaseVolume(p + "/" + rest) !in Effects(d, Plan(w, d, images, works), works).volumes
    ensures BaseVolume(p + "-" + rest) !in Effects(d, Plan(w, d, images, works), works).volumes
  {
    ContinuedNameIsTaken(p, rest);
    DirectorySurvivesExactly(w, d, images, works, p + "/" + rest);
    VolumeSurvivesExactly(w, d, images, works, BaseVolume(p + "/" + rest));
    VolumeSurvivesExactly(w, d, images, works, BaseVolume(p + "-" + rest));
  }

  lemma ContinuedVolume(p: Name, separator: string, rest: string)
    requires separator == "-" || separator == "/"
    ensures TakesVolume(p, BaseVolume(p + separator + rest))
  {
    SanitizeAppends(p + separator, rest);
    SanitizeAppends(p, separator);
    assert Sanitize(separator) == "-" by { assert separator[..0] == ""; }
    var taken := BaseVolume(p + separator + rest);
    assert taken == BaseVolume(p) + "-" + Sanitize(rest);
    assert taken[..|BaseVolume(p)| + 1] == BaseVolume(p) + "-";
  }

  lemma {:induction false} SanitizeAppends(a: string, b: string)
    ensures Sanitize(a + b) == Sanitize(a) + Sanitize(b)
  {
    if b == "" {
      assert a + b == a;
    } else {
      assert (a + b)[..|a + b| - 1] == a + b[..|b| - 1];
      SanitizeAppends(a, b[..|b| - 1]);
    }
  }
}
