/** Concurrent publication of results (src/runner/dvc_git_helper.py): workers fetch the branch
    tip, merge dvc.lock against the start commit, commit on the fetched tip and push, the push
    being a compare-and-swap on the remote branch. */
module Publication {
  import opened Prelude
  import opened LockMerge
  import opened LockAlgebra

  type Path = string
  type Blob = string

  const LOCK_FILE := "dvc.lock"

  /** The tree of a commit; dvc.lock is kept apart from the other files. */
  datatype Tree = Tree(lock: Option<Lock>, files: map<Path, Blob>)

  datatype Entry = File(content: Blob) | Directory

  /** What lies in a worker's checkout. */
  datatype Workspace = Workspace(lock: Option<Lock>, files: map<Path, Entry>)

  // ---------------------------------------------------------------- allowed paths

  /** is_path_allowed, on normalised paths. */
  predicate PathAllowed(path: Path, allowed: set<Path>) {
    path == LOCK_FILE || exists a :: a in allowed && (path == a || StartsWith(path, a + "/"))
  }

  /** The path is that of `rest` in the directory. */
  predicate LiesIn(path: Path, dir: Path, rest: Path) {
    path == dir + "/" + rest
  }

  /** Allowed are dvc.lock, the given paths, and what lies below them. */
  lemma AllowedExactly(path: Path, allowed: set<Path>)
    ensures PathAllowed(path, allowed) <==>
            path == "dvc.lock" || path in allowed || exists a, rest :: a in allowed && LiesIn(path, a, rest)
  {
    if path != LOCK_FILE && path !in allowed && PathAllowed(path, allowed) {
      var a :| a in allowed && StartsWith(path, a + "/");
      assert LiesIn(path, a, path[|a| + 1..]);
    }
    forall a, rest | a in allowed && LiesIn(path, a, rest) ensures PathAllowed(path, allowed) {
      assert path[..|a| + 1] == a + "/";
    }
  }

  function Targets(files: seq<Path>, allowed: set<Path>): (r: seq<Path>)
    ensures forall f :: f in r <==> f in files && PathAllowed(f, allowed)
  {
    if files == [] then []
    else
      var last := files[|files| - 1];
      assert files == files[..|files| - 1] + [last];
      Targets(files[..|files| - 1], allowed) + (if PathAllowed(last, allowed) then [last] else [])
  }

  // ---------------------------------------------------------------- one push attempt

  datatype LockPlan = CommitLock(lock: Option<Lock>) | LockConflict

  /** The merge is made only when both sides differ from the base and all three locks exist;
      otherwise the local lock is committed as it is. */
  function PlanLock(base: Option<Lock>, remote: Option<Lock>, local: Option<Lock>): LockPlan {
    if local.Some? && base.Some? && remote.Some? && base != remote && base != local then
      match Merge(base.value, local.value, remote.value)
      case Some(m) => CommitLock(Some(m))
      case None => LockConflict
    else CommitLock(local)
  }

  /** The index entry of one target file: a file is added, a missing path removed, and a
      directory left as the tip has it. */
  function StageFile(tree: Tree, ws: Workspace, lock: Option<Lock>, f: Path): Tree {
    if f == LOCK_FILE then tree.(lock := lock)
    else if f in ws.files then
      match ws.files[f]
      case File(content) => tree.(files := tree.files[f := content])
      case Directory => tree
    else tree.(files := map p | p in tree.files && p != f :: tree.files[p])
  }

  function StageFiles(tree: Tree, ws: Workspace, lock: Option<Lock>, targets: seq<Path>): Tree {
    if targets == [] then tree
    else StageFile(StageFiles(tree, ws, lock, targets[..|targets| - 1]), ws, lock, targets[|targets| - 1])
  }

  datatype Attempt = Prepared(tree: Tree, ws: Workspace) | Conflict

  /** Everything between a fetch and the push: merge, write the merged lock back, build the tree. */
  function Prepare(base: Option<Lock>, tip: Tree, ws: Workspace, targets: seq<Path>): Attempt {
    if LOCK_FILE in targets then
      match PlanLock(base, tip.lock, ws.lock)
      case LockConflict => Conflict
      case CommitLock(lock) => Prepared(StageFiles(tip, ws, lock, targets), ws.(lock := lock))
    else Prepared(StageFiles(tip, ws, ws.lock, targets), ws)
  }

  /** Paths outside the targets keep the tip's content; target files get the worker's. */
  lemma {:induction false} StagedFiles(tip: Tree, ws: Workspace, lock: Option<Lock>, targets: seq<Path>, p: Path)
    requires p != LOCK_FILE
    ensures Lookup(StageFiles(tip, ws, lock, targets).files, p)
         == if p !in targets then Lookup(tip.files, p)
            else if p !in ws.files then None
            else if ws.files[p].File? then Some(ws.files[p].content)
            else Lookup(tip.files, p)
  {
    if targets != [] {
      var front, last := targets[..|targets| - 1], targets[|targets| - 1];
      assert targets == front + [last];
      StagedFiles(tip, ws, lock, front, p);
    }
  }

  lemma {:induction false} StagedLock(tip: Tree, ws: Workspace, lock: Option<Lock>, targets: seq<Path>)
    ensures StageFiles(tip, ws, lock, targets).lock == if LOCK_FILE in targets then lock else tip.lock
  {
    if targets != [] {
      var front, last := targets[..|targets| - 1], targets[|targets| - 1];
      assert targets == front + [last];
      StagedLock(tip, ws, lock, front);
    }
  }

  // ---------------------------------------------------------------- when one push loses nothing

  /** Every entry the branch changed since the base is in the committed lock. */
  ghost predicate KeepsRemoteChanges(base: Option<Lock>, remote: Lock, plan: LockPlan) {
    plan.CommitLock? ==>
      var o := if base.Some? then base.value else map[];
      plan.lock.Some? && Below(o, remote, plan.lock.value)
  }

  /** A value that differs from two given ones. */
  function Another(u: Option<Plain>, v: Option<Plain>): Plain {
    if Some(Scalar("0")) != u && Some(Scalar("0")) != v then Scalar("0")
    else if Some(Scalar("1")) != u && Some(Scalar("1")) != v then Scalar("1")
    else Scalar("2")
  }

  /** A push keeps the branch's changes, whatever the branch holds, exactly when the start commit
      has a lock and the pushed lock exists and differs from it. In every other case there is a
      branch whose change the push drops. */
  lemma NoLostUpdateExactly(base: Option<Lock>, local: Option<Lock>)
    ensures (forall remote :: KeepsRemoteChanges(base, remote, PlanLock(base, Some(remote), local)))
            <==> base.Some? && local.Some? && base != local
  {
    if base.Some? && local.Some? && base != local {
      forall remote ensures KeepsRemoteChanges(base, remote, PlanLock(base, Some(remote), local)) {
        if base.value != remote {
          MergeIsLeastUpperBound(base.value, local.value, remote);
        }
      }
    } else {
      var o: Lock := if base.Some? then base.value else map[];
      var mine: Lock := if local.Some? then local.value else o;
      var remote := o["stage" := Another(Lookup(o, "stage"), Lookup(mine, "stage"))];
      assert Lookup(remote, "stage") != Lookup(o, "stage") && Lookup(remote, "stage") != Lookup(mine, "stage");
      assert !KeepsRemoteChanges(base, remote, PlanLock(base, Some(remote), local));
    }
  }

  /** An unchanged lock pushed on top of another worker's result takes that result out again. */
  lemma UnchangedLockRevertsOthers(base: Lock, remote: Lock)
    requires base != remote
    ensures PlanLock(Some(base), Some(remote), Some(base)) == CommitLock(Some(base))
  {
  }
}
