/** The emergency garbage collector of a worker (src/runner/gc_orchestrator.py): which projects it
    may touch, and in which order it takes from them. */
module TieredGc {
  import opened Prelude

  type Name = string
  type Image = string

  /** Only idle projects are eligible; a project being deleted or synchronised is `Other`. */
  datatype Status = Running | Idle | Deleted | Other

  datatype Project = Project(status: Status, last: int)

  /** The registry with its order of entries, the containers and mounts that docker reports, the
      protection window, the time, and the repository a workspace name stands for. */
  datatype World = World(registry: map<Name, Project>, order: seq<Name>, active: seq<string>,
                         window: int, now: int, key: Name -> string)

  // ---------------------------------------------------------------- names

  predicate EndsWith(s: string, suffix: string) {
    |suffix| <= |s| && s[|s| - |suffix|..] == suffix
  }

  /** A component of a path. */
  predicate HasPart(s: string, part: string) {
    s == part || StartsWith(s, part + "/") || EndsWith(s, "/" + part) || Contains(s, "/" + part + "/")
  }

  /** validate_project_name: a relative path without backslashes, empty components or "..". */
  predicate ValidName(name: Name) {
    var s := Strip(name);
    && s != "" && s != "."
    && !StartsWith(s, "/") && !EndsWith(s, "/")
    && '\\' !in s && !Contains(s, "//") && !HasPart(s, "..")
  }

  // ---------------------------------------------------------------- protection

  function Sanitize(name: string): (r: string)
    ensures |r| == |name|
  {
    if name == "" then ""
    else Sanitize(name[..|name| - 1]) + [if name[|name| - 1] == '/' then '-' else name[|name| - 1]]
  }

  const HOME: string := "cluster-ci-home-"

  function BaseVolume(name: Name): string {
    HOME + Sanitize(name)
  }

  predicate ActiveInDocker(name: Name, active: seq<string>) {
    exists info :: info in active &&
      (Contains(info, BaseVolume(name)) || Contains(info, name) || Contains(info, Sanitize(name)))
  }

  predicate Protected(w: World, name: Name, p: Project) {
    p.status.Running? || ActiveInDocker(name, w.active) || w.now - p.last < w.window
  }

  predicate Eligible(w: World, name: Name) {
    name in w.registry && ValidName(name) && w.registry[name].status.Idle? && !Protected(w, name, w.registry[name])
  }

  /** Some workspace of the same repository is protected. */
  predicate RepoInUse(w: World, key: string) {
    exists q :: q in w.registry && w.key(q) == key && Protected(w, q, w.registry[q])
  }

  // ---------------------------------------------------------------- LRU order

  function Age(w: World, n: Name): int {
    if n in w.registry then w.registry[n].last else 0
  }

  ghost predicate SortedByAge(w: World, s: seq<Name>) {
    forall i, j :: 0 <= i < j < |s| ==> Age(w, s[i]) <= Age(w, s[j])
  }

  /** After the entries that are at most as old, as a stable sort does. */
  function Insert(w: World, n: Name, s: seq<Name>): (r: seq<Name>)
    ensures |r| == |s| + 1 && forall x :: x in r <==> x in s || x == n
  {
    if s == [] || Age(w, s[|s| - 1]) <= Age(w, n) then s + [n]
    else
      var last := s[|s| - 1];
      assert s == s[..|s| - 1] + [last];
      Insert(w, n, s[..|s| - 1]) + [last]
  }

  lemma {:induction false} InsertSorts(w: World, n: Name, s: seq<Name>)
    requires SortedByAge(w, s)
    ensures SortedByAge(w, Insert(w, n, s))
    ensures n !in s && NoDup(s) ==> NoDup(Insert(w, n, s))
  {
    if s != [] && Age(w, s[|s| - 1]) > Age(w, n) {
      var front, last := s[..|s| - 1], s[|s| - 1];
      InsertSorts(w, n, front);
      var r := Insert(w, n, front);
      forall i | 0 <= i < |r| ensures Age(w, r[i]) <= Age(w, last) {
        assert r[i] in r;
        if r[i] != n {
          var j :| 0 <= j < |front| && front[j] == r[i];
          assert s[j] == r[i];
        }
      }
      if n !in s && NoDup(s) {
        forall i | 0 <= i < |r| ensures r[i] != last {
          assert r[i] in r;
        }
      }
    }
  }

  function Collect(w: World, names: seq<Name>): (r: seq<Name>)
    ensures forall n :: n in r <==> n in names && Eligible(w, n)
  {
    if names == [] then []
    else
      var last := names[|names| - 1];
      assert names == names[..|names| - 1] + [last];
      var front := Collect(w, names[..|names| - 1]);
      if Eligible(w, last) then Insert(w, last, front) else front
  }

  /** The eligible projects, each once, the least recently used first. */
  lemma {:induction false} CollectSorts(w: World, names: seq<Name>)
    requires NoDup(names)
    ensures SortedByAge(w, Collect(w, names)) && NoDup(Collect(w, names))
  {
    if names != [] {
      var front, last := names[..|names| - 1], names[|names| - 1];
      CollectSorts(w, front);
      InsertSorts(w, last, Collect(w, front));
      assert forall i :: 0 <= i < |front| ==> front[i] == names[i] != last;
    }
  }

  // ---------------------------------------------------------------- what a cleanup takes

  datatype Action =
    | Prune
    | History(n: Name)
    | TempFiles(n: Name)
    | HomeVolumes(n: Name)
    | DvcCache(n: Name)
    | RemoveImage(i: Image)
    | RemoveWorkspace(n: Name)

  /** Project directories, their DVC caches, and docker volumes. */
  datatype Disk = Disk(dirs: set<Name>, caches: set<Name>, volumes: set<string>)

  /** `q` is `p` or lies in its directory. */
  predicate Under(q: Name, p: Name) {
    q == p || StartsWith(q, p + "/")
  }

  /** The base volume and the image volumes, recognised by prefix. */
  predicate TakesVolume(p: Name, v: string) {
    v == BaseVolume(p) || StartsWith(v, BaseVolume(p) + "-")
  }

  /** What the action leaves; `works` tells whether the removal succeeds. */
  function Effect(d: Disk, a: Action, works: Action -> bool): Disk {
    if !works(a) then d
    else match a
      case HomeVolumes(p) => d.(volumes := set v | v in d.volumes && !TakesVolume(p, v))
      case DvcCache(p) => d.(caches := d.caches - {p})
      case RemoveWorkspace(p) =>
        Disk((set q | q in d.dirs && !Under(q, p)), (set q | q in d.caches && !Under(q, p)), d.volumes)
      case _ => d
  }

  function Effects(d: Disk, log: seq<Action>, works: Action -> bool): Disk {
    if log == [] then d else Effect(Effects(d, log[..|log| - 1], works), log[|log| - 1], works)
  }

  // ---------------------------------------------------------------- the plan

  function Tier1(dirs: set<Name>, el: seq<Name>): seq<Action> {
    if el == [] then []
    else
      var p := el[|el| - 1];
      Tier1(dirs, el[..|el| - 1]) + if p in dirs then [History(p), TempFiles(p)] else []
  }

  function Tier2(el: seq<Name>): seq<Action> {
    seq(|el|, i requires 0 <= i < |el| => HomeVolumes(el[i]))
  }

  function Tier3(w: World, caches: set<Name>, el: seq<Name>): seq<Action> {
    if el == [] then []
    else
      var p := el[|el| - 1];
      Tier3(w, caches, el[..|el| - 1]) + if !RepoInUse(w, w.key(p)) && p in caches then [DvcCache(p)] else []
  }

  function Tier4(images: seq<Image>): seq<Action> {
    seq(|images|, i requires 0 <= i < |images| => RemoveImage(images[i]))
  }

  /** The workspaces that still exist when their turn comes. */
  function Tier5(d: Disk, el: seq<Name>, works: Action -> bool): (r: seq<Action>)
    ensures forall a :: a in r ==> a.RemoveWorkspace? && a.n in el
  {
    if el == [] then []
    else
      var before := Tier5(d, el[..|el| - 1], works);
      var p := el[|el| - 1];
      assert el == el[..|el| - 1] + [p];
      before + if p in Effects(d, before, works).dirs then [RemoveWorkspace(p)] else []
  }

  /** Everything the collector would do if the target were never reached. Without an eligible
      project it does not even look at the images. */
  function Plan(w: World, d: Disk, images: seq<Image>, works: Action -> bool): seq<Action> {
    var el := Collect(w, w.order);
    if el == [] then [Prune]
    else [Prune] + Tier1(d.dirs, el) + Tier2(el) + Tier3(w, d.caches, el) + Tier4(images) + Tier5(d, el, works)
  }
}
