/** The garbage collector as it works on a worker's disk and registry
    (src/runner/gc_orchestrator.py). */
module GcStore {
  import opened Prelude
  import opened TieredGc
  import opened GcSafety

  lemma {:induction false} Tier1Begins(dirs: set<Name>, el: seq<Name>, i: nat)
    requires i <= |el|
    ensures Tier1(dirs, el[..i]) <= Tier1(dirs, el)
    decreases |el| - i
  {
    if i == |el| { assert el[..i] == el; }
    else {
      assert el[..i + 1][..i] == el[..i];
      Tier1Begins(dirs, el, i + 1);
    }
  }

  lemma {:induction false} Tier3Begins(w: World, caches: set<Name>, el: seq<Name>, i: nat)
    requires i <= |el|
    ensures Tier3(w, caches, el[..i]) <= Tier3(w, caches, el)
    decreases |el| - i
  {
    if i == |el| { assert el[..i] == el; }
    else {
      assert el[..i + 1][..i] == el[..i];
      Tier3Begins(w, caches, el, i + 1);
    }
  }

  lemma {:induction false} Tier5Begins(d: Disk, el: seq<Name>, works: Action -> bool, i: nat)
    requires i <= |el|
    ensures Tier5(d, el[..i], works) <= Tier5(d, el, works)
    decreases |el| - i
  {
    if i == |el| { assert el[..i] == el; }
    else {
      assert el[..i + 1][..i] == el[..i];
      Tier5Begins(d, el, works, i + 1);
    }
  }

  /** The first `i` projects have had their turn: the log and what is left of the disk since the
      last tier began. */
  ghost predicate InTier5(works: Action -> bool, start: seq<Action>, d: Disk, el: seq<Name>, i: nat,
                          log: seq<Action>, left: Disk) {
    i <= |el| && var t := Tier5(d, el[..i], works); log == start + t && left == Effects(d, t, works)
  }

  lemma NextWorkspace(works: Action -> bool, start: seq<Action>, d: Disk, el: seq<Name>, i: nat, log: seq<Action>,
                      left: Disk)
    requires i < |el| && InTier5(works, start, d, el, i, log, left)
    ensures var a := RemoveWorkspace(el[i]);
            if el[i] in left.dirs then InTier5(works, start, d, el, i + 1, log + [a], Effect(left, a, works))
            else InTier5(works, start, d, el, i + 1, log, left)
  {
    assert el[..i + 1][..i] == el[..i];
    var t := Tier5(d, el[..i], works);
    assert (t + [RemoveWorkspace(el[i])])[..|t|] == t && t + [] == t;
  }

  lemma StartHasNoOther(log: seq<Action>, all: seq<Action>)
    requires log <= all && forall a :: a in all ==> !a.RemoveWorkspace?
    ensures forall a :: a in log ==> !a.RemoveWorkspace?
  {
    forall a | a in log ensures a in all {
      var i :| 0 <= i < |log| && log[i] == a;
      assert all[i] == a;
    }
  }

  function EarlyTiers(w: World, d: Disk, images: seq<Image>, el: seq<Name>): seq<Action> {
    (Tier1(d.dirs, el) + Tier2(el)) + (Tier3(w, d.caches, el) + Tier4(images))
  }

  lemma PlanIsEarlyThenLast(w: World, d: Disk, images: seq<Image>, works: Action -> bool)
    requires Collect(w, w.order) != []
    ensures var el := Collect(w, w.order);
            Plan(w, d, images, works) == [Prune] + EarlyTiers(w, d, images, el) + Tier5(d, el, works)
  {
  }

  lemma EarlyKeepsWorkspaces(w: World, d: Disk, images: seq<Image>, el: seq<Name>)
    ensures forall a :: a in EarlyTiers(w, d, images, el) ==> !a.RemoveWorkspace?
  {
    forall a | a in EarlyTiers(w, d, images, el) ensures !a.RemoveWorkspace? {
      Tier1Names(d.dirs, el, a);
      Tier3Names(w, d.caches, el, a);
    }
  }

  lemma {:induction false} LastTierDirsOnly(d: Disk, d': Disk, el: seq<Name>, works: Action -> bool)
    requires d.dirs == d'.dirs
    ensures Tier5(d, el, works) == Tier5(d', el, works)
  {
    if el != [] {
      var front := el[..|el| - 1];
      LastTierDirsOnly(d, d', front, works);
      DirsOnly(d, d', Tier5(d, front, works), works);
    }
  }

  datatype RegistryFile = Missing | Corrupt | Readable

  /** The current project cannot be marked as running. */
  predicate Refused(current: Option<Name>, file: RegistryFile) {
    current.Some? && (!ValidName(current.value) || file.Corrupt?)
  }

  class Collector {
    const target: int
    const space: nat -> int          // the free space after so many actions
    const works: Action -> bool
    var registry: map<Name, Project>
    var order: seq<Name>
    var dirs: set<Name>
    var caches: set<Name>
    var volumes: set<string>
    var log: seq<Action>

    ghost function View(): Disk
      reads this
    {
      Disk(dirs, caches, volumes)
    }

    constructor (target: int, space: nat -> int, works: Action -> bool, registry: map<Name, Project>,
                 order: seq<Name>, d: Disk)
      ensures this.target == target && this.space == space && this.works == works
      ensures this.registry == registry && this.order == order && View() == d && log == []
    {
      this.target, this.space, this.works := target, space, works;
      this.registry, this.order := registry, order;
      dirs, caches, volumes, log := d.dirs, d.caches, d.volumes, [];
    }

    predicate Reached()
      reads this
    {
      space(|log|) >= target
    }

    /** Every action so far was taken below the target. */
    ghost predicate Needed()
      reads this
    {
      forall i :: 0 <= i < |log| ==> space(i) < target
    }

    /** The state after the actions of the log on a disk. */
    ghost predicate Ran(d: Disk)
      reads this
    {
      Needed() && View() == Effects(d, log, works)
    }

    method Take(a: Action, ghost d: Disk)
      requires Ran(d) && !Reached()
      modifies this`log, this`dirs, this`caches, this`volumes
      ensures Ran(d) && log == old(log) + [a] && View() == Effect(old(View()), a, works)
    {
      if works(a) {
        match a
        case HomeVolumes(p) => volumes := set v | v in volumes && !TakesVolume(p, v);
        case DvcCache(p) => caches := caches - {p};
        case RemoveWorkspace(p) =>
          dirs, caches := (set q | q in dirs && !Under(q, p)), (set q | q in caches && !Under(q, p));
        case _ =>
      }
      log := log + [a];
      assert log[..|log| - 1] == old(log);
    }

    /** The log stopped within a tier, or covered it below the target. */
    ghost predicate Covered(start: seq<Action>, tier: seq<Action>, done: bool)
      reads this
    {
      && start <= log && log <= start + tier
      && (if done then Reached() else !Reached() && log == start + tier)
    }

    method CleanOne(p: Name, ghost d: Disk) returns (done: bool)
      requires Ran(d) && !Reached()
      modifies this`log, this`dirs, this`caches, this`volumes
      ensures Ran(d) && View() == old(View()) && Covered(old(log), [History(p), TempFiles(p)], done)
    {
      Take(History(p), d);
      if Reached() { return true; }
      Take(TempFiles(p), d);
      done := Reached();
    }

    method CleanCaches(el: seq<Name>, ghost d: Disk) returns (done: bool)
      requires Ran(d) && !Reached()
      modifies this`log, this`dirs, this`caches, this`volumes
      ensures Ran(d) && View() == old(View()) && Covered(old(log), Tier1(dirs, el), done)
    {
      for i := 0 to |el|
        invariant Ran(d) && View() == old(View()) && !Reached()
        invariant log == old(log) + Tier1(dirs, el[..i])
      {
        assert el[..i + 1][..i] == el[..i];
        Tier1Begins(dirs, el, i + 1);
        if el[i] in dirs {
          var reached := CleanOne(el[i], d);
          if reached { return true; }
        }
      }
      assert el[..|el|] == el;
      done := false;
    }

    method RemoveVolumes(el: seq<Name>, ghost d: Disk) returns (done: bool)
      requires Ran(d) && !Reached()
      modifies this`log, this`dirs, this`caches, this`volumes
      ensures Ran(d) && dirs == old(dirs) && caches == old(caches) && Covered(old(log), Tier2(el), done)
    {
      for i := 0 to |el|
        invariant Ran(d) && dirs == old(dirs) && caches == old(caches) && !Reached()
        invariant log == old(log) + Tier2(el)[..i]
      {
        assert Tier2(el)[..i + 1] == Tier2(el)[..i] + [HomeVolumes(el[i])];
        Take(HomeVolumes(el[i]), d);
        if Reached() { return true; }
      }
      assert Tier2(el)[..|el|] == Tier2(el);
      done := false;
    }

    method RemoveCaches(w: World, el: seq<Name>, ghost d: Disk) returns (done: bool)
      requires Ran(d) && !Reached() && NoDup(el)
      modifies this`log, this`dirs, this`caches, this`volumes
      ensures Ran(d) && dirs == old(dirs) && Covered(old(log), Tier3(w, old(caches), el), done)
    {
      for i := 0 to |el|
        invariant Ran(d) && dirs == old(dirs) && !Reached()
        invariant forall j :: i <= j < |el| ==> (el[j] in caches <==> el[j] in old(caches))
        invariant log == old(log) + Tier3(w, old(caches), el[..i])
      {
        assert el[..i + 1][..i] == el[..i];
        Tier3Begins(w, old(caches), el, i + 1);
        if !RepoInUse(w, w.key(el[i])) && el[i] in caches {
          Take(DvcCache(el[i]), d);
          if Reached() { return true; }
        }
      }
      assert el[..|el|] == el;
      done := false;
    }

    method RemoveImages(images: seq<Image>, ghost d: Disk) returns (done: bool)
      requires Ran(d) && !Reached()
      modifies this`log, this`dirs, this`caches, this`volumes
      ensures Ran(d) && dirs == old(dirs) && Covered(old(log), Tier4(images), done)
    {
      for i := 0 to |images|
        invariant Ran(d) && dirs == old(dirs) && !Reached()
        invariant log == old(log) + Tier4(images)[..i]
      {
        assert Tier4(images)[..i + 1] == Tier4(images)[..i] + [RemoveImage(images[i])];
        Take(RemoveImage(images[i]), d);
        if Reached() { return true; }
      }
      assert Tier4(images)[..|images|] == Tier4(images);
      done := false;
    }

    /** A workspace counts as deleted once its removal was tried. */
    ghost predicate MarkedDeleted(before: map<Name, Project>)
      reads this
    {
      && registry.Keys == before.Keys
      && forall n :: n in registry ==>
           registry[n] == if RemoveWorkspace(n) in log then before[n].(status := Deleted) else before[n]
    }

    method RemoveOne(p: Name, ghost d: Disk, ghost before: map<Name, Project>)
      requires Ran(d) && !Reached() && p in registry && MarkedDeleted(before)
      modifies this`log, this`dirs, this`caches, this`volumes, this`registry
      ensures Ran(d) && log == old(log) + [RemoveWorkspace(p)] && MarkedDeleted(before)
      ensures View() == Effect(old(View()), RemoveWorkspace(p), works)
    {
      Take(RemoveWorkspace(p), d);
      registry := registry[p := registry[p].(status := Deleted)];
    }

    method RemoveWorkspaces(el: seq<Name>, ghost d: Disk) returns (done: bool)
      requires Ran(d) && !Reached() && (forall p :: p in el ==> p in registry)
      requires MarkedDeleted(registry)
      modifies this`log, this`dirs, this`caches, this`volumes, this`registry
      ensures Ran(d) && Covered(old(log), Tier5(old(View()), el, works), done) && MarkedDeleted(old(registry))
    {
      ghost var disk, start, before := View(), log, registry;
      for i := 0 to |el|
        invariant Ran(d) && !Reached() && MarkedDeleted(before)
        invariant InTier5(works, start, disk, el, i, log, View())
      {
        NextWorkspace(works, start, disk, el, i, log, View());
        if el[i] in dirs { RemoveOne(el[i], d, before); }
        if Reached() {
          Tier5Begins(disk, el, works, i + 1);
          return true;
        }
      }
      assert el[..|el|] == el;
      done := false;
    }

    method RunFirstTiers(el: seq<Name>, ghost d: Disk) returns (done: bool)
      requires Ran(d) && !Reached()
      modifies this`log, this`dirs, this`caches, this`volumes
      ensures Ran(d) && dirs == old(dirs) && caches == old(caches)
      ensures Covered(old(log), Tier1(dirs, el) + Tier2(el), done)
    {
      done := CleanCaches(el, d);
      if done { return; }
      done := RemoveVolumes(el, d);
    }

    method RunMiddleTiers(w: World, images: seq<Image>, el: seq<Name>, ghost d: Disk) returns (done: bool)
      requires Ran(d) && !Reached() && NoDup(el)
      modifies this`log, this`dirs, this`caches, this`volumes
      ensures Ran(d) && dirs == old(dirs) && Covered(old(log), Tier3(w, old(caches), el) + Tier4(images), done)
    {
      done := RemoveCaches(w, el, d);
      if done { return; }
      done := RemoveImages(images, d);
    }

    /** The tiers that leave the workspaces. */
    method RunEarlyTiers(w: World, images: seq<Image>, el: seq<Name>, ghost d: Disk) returns (done: bool)
      requires Ran(d) && !Reached() && NoDup(el)
      modifies this`log, this`dirs, this`caches, this`volumes
      ensures Ran(d) && dirs == old(dirs) && Covered(old(log), EarlyTiers(w, old(View()), images, el), done)
    {
      done := RunFirstTiers(el, d);
      if done { return; }
      done := RunMiddleTiers(w, images, el, d);
    }

    /** The log is the shortest start of the plan after which the target is reached, or the whole
        plan if there is none. */
    ghost predicate Stopped(plan: seq<Action>)
      reads this
    {
      Needed() && log <= plan && (log == plan || Reached())
    }

    method RunTiers(w: World, images: seq<Image>, el: seq<Name>, ghost d: Disk)
      requires Ran(d) && !Reached() && el == Collect(w, w.order) && el != [] && NoDup(el)
      requires log == [Prune] && View() == d && (forall p :: p in el ==> p in registry)
      modifies this`log, this`dirs, this`caches, this`volumes, this`registry
      ensures Ran(d) && Stopped(Plan(w, d, images, works)) && MarkedDeleted(old(registry))
    {
      ghost var early := EarlyTiers(w, d, images, el);
      PlanIsEarlyThenLast(w, d, images, works);
      EarlyKeepsWorkspaces(w, d, images, el);
      var done := RunEarlyTiers(w, images, el, d);
      StartHasNoOther(log, [Prune] + early);
      if done { return; }
      LastTierDirsOnly(d, View(), el, works);
      done := RemoveWorkspaces(el, d);
    }

    /** update_running: the project that is about to run is no candidate. */
    method MarkRunning(p: Name, now: int)
      modifies this`registry, this`order
      ensures registry == old(registry)[p := Project(Running, now)]
      ensures order == if p in old(registry) then old(order) else old(order) + [p]
    {
      if p !in registry { order := order + [p]; }
      registry := registry[p := Project(Running, now)];
    }

    method CollectEligible(w: World) returns (el: seq<Name>)
      ensures el == Collect(w, w.order)
    {
      el := [];
      for i := 0 to |w.order|
        invariant el == Collect(w, w.order[..i])
      {
        assert w.order[..i + 1][..i] == w.order[..i];
        if Eligible(w, w.order[i]) { el := Insert(w, w.order[i], el); }
      }
      assert w.order[..|w.order|] == w.order;
    }

    /** From the prune on: what follows the first look at the free space. */
    method Purge(w: World, readable: bool, images: seq<Image>)
      requires log == [] && !Reached() && registry == w.registry && Enumerates(w.order, w.registry.Keys)
      modifies this`log, this`dirs, this`caches, this`volumes, this`registry
      ensures Ran(old(View())) && MarkedDeleted(w.registry)
      ensures Stopped(if readable then Plan(w, old(View()), images, works) else [Prune])
    {
      ghost var d := View();
      Take(Prune, d);
      if Reached() || !readable { return; }
      var el := CollectEligible(w);
      if el == [] { return; }
      CollectSorts(w, w.order);
      RunTiers(w, images, el, d);
    }

    /** run_tiered_gc in emergency mode. `docker` is what docker reports, None if it cannot be
        asked. An invalid current project or a corrupt registry that should take its mark ends
        the collection before it starts; the mark creates a registry that was missing. */
    method RunEmergencyGc(current: Option<Name>, now: int, window: int, key: Name -> string,
                          docker: Option<seq<string>>, file: RegistryFile, images: seq<Image>)
      returns (ghost w: World)
      requires log == [] && Enumerates(order, registry.Keys) && (file.Missing? ==> registry == map[])
      modifies this
      ensures w.registry == if current.Some? && !Refused(current, file)
                then old(registry)[current.value := Project(Running, now)]
                            else old(registry)
      ensures Enumerates(w.order, w.registry.Keys) && w.now == now && w.window == window && w.key == key
      ensures docker.Some? ==> w.active == docker.value
      ensures Refused(current, file) || docker.None? ==> log == [] && View() == old(View())
      ensures !Refused(current, file) && docker.Some? ==>
                Stopped(if file.Readable? || (file.Missing? && current.Some?) then Plan(w, old(View()), images, works)
                        else [Prune])
      ensures View() == Effects(old(View()), log, works)
      ensures forall n :: n in w.registry && RemoveWorkspace(n) !in log ==>
                n in registry && registry[n] == w.registry[n]
    {
      var readable := file.Readable?;
      if current.Some? {
        if !ValidName(current.value) || file.Corrupt? {
          w := World(registry, order, if docker.Some? then docker.value else [], window, now, key);
          return;
        }
        MarkRunning(current.value, now);
        readable := true;
      }
      var world := World(registry, order, if docker.Some? then docker.value else [], window, now, key);
      w := world;
      if docker.None? || Reached() { return; }
      Purge(world, readable, images);
    }
  }
}
