/** Any number of workers publishing at once: the reachable states of the protocol built from
    the attempts in Publication, and what every interleaving keeps. */
module PublicationRuns {
  import opened Prelude
  import opened LockMerge
  import opened LockAlgebra
  import opened Publication

  /** Index of the start commit in the branch history, its lock, and the retry limit. */
  datatype Config = Config(start: nat, base: Lock, limit: nat)

  /** `Ready` holds a node's result that is to be pushed, `Fetched` a commit prepared on the tip
      with index `tip`, `Published` a result contained in the commit with index `at`. */
  datatype Phase =
    | Working
    | Ready(own: Lock, targets: seq<Path>)
    | Fetched(own: Lock, targets: seq<Path>, tip: nat, tree: Tree)
    | Published(own: Lock, at: nat)
    | SyncFailed
    | Conflicted
    | Exhausted

  /** `since` is the length of the history when the push loop began; `errors` counts the
      transient failures of the loop. Both only serve the bound on attempts. */
  datatype Worker = Worker(ws: Workspace, phase: Phase, attempts: nat, since: nat, errors: nat)

  /** The branch, the workers, and the results pushed so far, in commit order. */
  datatype State = State(history: seq<Tree>, workers: seq<Worker>, pushed: seq<Lock>)

  function Tip(s: State): Tree
    requires s.history != []
  {
    s.history[|s.history| - 1]
  }

  datatype Event =
    | Sync(worker: nat, head: Option<Lock>, mergeBase: Lock)
    | RunNode(worker: nat, own: Lock, files: map<Path, Entry>, targets: seq<Path>)
    | Fetch(worker: nat)
    | FetchFails(worker: nat)
    | Push(worker: nat)
    | PushUnconfirmed(worker: nat)
    | PushFails(worker: nat)
    | HumanCommit(tree: Tree)

  // ---------------------------------------------------------------- the steps of one worker

  datatype SyncResult = Synced(lock: Option<Lock>) | SyncError

  /** sync_before_node for dvc.lock, `base` being the lock of the merge base of HEAD and the branch:
      nothing if HEAD has the branch's lock already; a merge when both sides changed; otherwise the
      branch's lock replaces the local one. */
  function SyncLock(base: Option<Lock>, head: Option<Lock>, remote: Option<Lock>, local: Option<Lock>): SyncResult {
    if head == remote then Synced(local)
    else if local.Some? && base.Some? && remote.Some? && base != remote && local != base then
      match Merge(base.value, local.value, remote.value)
      case Some(m) => Synced(Some(m))
      case None => SyncError
    else if remote.Some? then Synced(remote)
    else SyncError
  }

  /** A node run rewrites exactly the entries in which its result differs from the base. */
  function Overlay(base: Lock, own: Lock, local: Lock): Lock {
    map k | k in own.Keys + local.Keys && (if Lookup(own, k) != Lookup(base, k) then k in own else k in local)
      :: if Lookup(own, k) != Lookup(base, k) then own[k] else local[k]
  }

  /** After a failed attempt the loop goes on until the limit is reached. */
  function Retry(c: Config, w: Worker, own: Lock, targets: seq<Path>): Worker {
    w.(phase := if w.attempts >= c.limit then Exhausted else Ready(own, targets))
  }

  function FetchStep(c: Config, s: State, w: Worker): Worker
    requires s.history != [] && w.phase.Ready?
  {
    match Prepare(Some(c.base), Tip(s), w.ws, w.phase.targets)
    case Conflict => w.(phase := Conflicted, attempts := w.attempts + 1)
    case Prepared(tree, ws) =>
      w.(ws := ws, attempts := w.attempts + 1,
         phase := if tree == Tip(s) then Published(w.phase.own, |s.history| - 1)
                  else Fetched(w.phase.own, w.phase.targets, |s.history| - 1, tree))
  }

  function WorkerOf(e: Event): Option<nat> {
    if e.HumanCommit? then None else Some(e.worker)
  }

  /** The assumptions on the environment: HEAD is the start commit or one whose lock the worker's
      own lock contains, as after a push of its own; a node runs on a synchronised checkout that has a lock,
      its result differs from the start lock and is pushed with dvc.lock; people leave dvc.lock
      alone. */
  ghost predicate Enabled(c: Config, s: State, e: Event) {
    && s.history != []
    && (WorkerOf(e).Some? ==> WorkerOf(e).value < |s.workers|)
    && match e
       case Sync(i, _, mergeBase) =>
         && (s.workers[i].phase.Working? || s.workers[i].phase.Published?)
         && (s.workers[i].ws.lock.Some? ==> Below(c.base, mergeBase, s.workers[i].ws.lock.value))
       case RunNode(i, own, _, targets) =>
         && (s.workers[i].phase.Working? || s.workers[i].phase.Published?)
         && s.workers[i].ws.lock.Some? && own != c.base && LOCK_FILE in targets
       case Fetch(i) => s.workers[i].phase.Ready? && s.workers[i].attempts < c.limit
       case FetchFails(i) => s.workers[i].phase.Ready? && s.workers[i].attempts < c.limit
       case Push(i) => s.workers[i].phase.Fetched?
       case PushUnconfirmed(i) => s.workers[i].phase.Fetched?
       case PushFails(i) => s.workers[i].phase.Fetched?
       case HumanCommit(tree) => tree.lock == Tip(s).lock
  }

  /** The compare-and-swap succeeds when nobody has pushed since the fetch. */
  predicate Current(s: State, w: Worker) {
    w.phase.Fetched? && w.phase.tip == |s.history| - 1
  }

  function Step(c: Config, s: State, e: Event): State
    requires Enabled(c, s, e)
  {
    match e
    case Sync(i, head, mergeBase) =>
      var w := s.workers[i];
      (match SyncLock(Some(mergeBase), head, Tip(s).lock, w.ws.lock)
       case Synced(lock) => s.(workers := s.workers[i := w.(ws := w.ws.(lock := lock))])
       case SyncError => s.(workers := s.workers[i := w.(phase := SyncFailed)]))
    case RunNode(i, own, files, targets) =>
      var w := s.workers[i];
      s.(workers := s.workers[i :=
        Worker(Workspace(Some(Overlay(c.base, own, w.ws.lock.value)), files), Ready(own, targets), 0, |s.history|, 0)])
    case Fetch(i) => s.(workers := s.workers[i := FetchStep(c, s, s.workers[i])])
    case FetchFails(i) =>
      var w := s.workers[i].(attempts := s.workers[i].attempts + 1, errors := s.workers[i].errors + 1);
      s.(workers := s.workers[i := Retry(c, w, w.phase.own, w.phase.targets)])
    case Push(i) =>
      var w := s.workers[i];
      if Current(s, w) then
        State(s.history + [w.phase.tree],
              s.workers[i := w.(phase := Published(w.phase.own, |s.history|))],
              s.pushed + [w.phase.own])
      else s.(workers := s.workers[i := Retry(c, w, w.phase.own, w.phase.targets)])
    case PushUnconfirmed(i) =>
      var w := s.workers[i];
      var s' := s.(workers := s.workers[i := Retry(c, w, w.phase.own, w.phase.targets)]);
      if Current(s, w) then s'.(history := s.history + [w.phase.tree], pushed := s.pushed + [w.phase.own])
      else s'
    case PushFails(i) =>
      var w := s.workers[i].(errors := s.workers[i].errors + 1);
      s.(workers := s.workers[i := Retry(c, w, w.phase.own, w.phase.targets)])
    case HumanCommit(tree) => s.(history := s.history + [tree])
  }

  // ---------------------------------------------------------------- what every state keeps

  /** Merge of two locks that have a common upper bound. */
  function Lub(base: Lock, a: Lock, b: Lock): Lock {
    var m := Merge(base, a, b);
    if m.Some? then m.value else a
  }

  /** From the start commit on, every commit has a lock, whose changes lie below `goal`, and no
      commit takes out a change of an earlier one. */
  ghost predicate HistoryOk(c: Config, goal: Lock, history: seq<Tree>) {
    && |history| > c.start
    && (forall j :: c.start <= j < |history| ==> history[j].lock.Some? && Below(c.base, history[j].lock.value, goal))
    && (forall j, k :: c.start <= j <= k < |history| ==> Below(c.base, history[j].lock.value, history[k].lock.value))
  }

  /** A checkout that holds its node's result, and otherwise nothing the branch does not hold. */
  ghost predicate HoldsResult(c: Config, goal: Lock, tip: Lock, ws: Workspace, own: Lock) {
    && own != c.base && Below(c.base, own, goal)
    && ws.lock.Some? && Below(c.base, own, ws.lock.value)
    && Below(c.base, ws.lock.value, Lub(c.base, tip, own))
  }

  ghost predicate WorkerOk(c: Config, goal: Lock, history: seq<Tree>, w: Worker)
    requires HistoryOk(c, goal, history)
  {
    var tip := history[|history| - 1].lock.value;
    match w.phase
    case Working => w.ws.lock.Some? && Below(c.base, w.ws.lock.value, tip)
    case Published(own, at) =>
      && w.ws.lock.Some? && Below(c.base, w.ws.lock.value, tip)
      && c.start <= at < |history| && Below(c.base, own, history[at].lock.value)
    case Ready(own, targets) => HoldsResult(c, goal, tip, w.ws, own) && LOCK_FILE in targets
    case Fetched(own, targets, at, tree) =>
      && HoldsResult(c, goal, tip, w.ws, own) && LOCK_FILE in targets
      && c.start <= at < |history|
      && tree == StageFiles(history[at], w.ws, w.ws.lock, targets)
      && w.ws.lock == Some(Lub(c.base, history[at].lock.value, own))
    case Exhausted => true
    case SyncFailed => false
    case Conflicted => false
  }

  /** Failed attempts are paid for by transient errors and by commits that landed meanwhile. */
  predicate AttemptsPaid(c: Config, history: seq<Tree>, w: Worker) {
    && w.since <= |history|
    && match w.phase
       case Ready(_, _) => w.attempts <= w.errors + |history| - w.since
       case Fetched(_, _, at, _) => at < |history| && w.attempts <= w.errors + at + 2 - w.since
       case Exhausted => c.limit <= w.errors + |history| - w.since
       case _ => true
  }

  ghost predicate Invariant(c: Config, goal: Lock, s: State) {
    && HistoryOk(c, goal, s.history)
    && Fold(c.base, s.pushed) == Some(Tip(s).lock.value)
    && (forall i :: 0 <= i < |s.workers| ==> WorkerOk(c, goal, s.history, s.workers[i]))
    && (forall i :: 0 <= i < |s.workers| ==> AttemptsPaid(c, s.history, s.workers[i]))
  }

  ghost predicate Initial(c: Config, s: State) {
    && |s.history| == c.start + 1 && Tip(s).lock == Some(c.base)
    && s.pushed == []
    && forall w :: w in s.workers ==>
         w.phase.Working? && w.ws.lock == Some(c.base) && w.attempts == w.errors == w.since == 0
  }

  lemma InitialInvariant(c: Config, goal: Lock, s: State)
    requires Initial(c, s)
    ensures Invariant(c, goal, s)
  {
  }

  // ---------------------------------------------------------------- locks along a step

  lemma LubFacts(base: Lock, goal: Lock, a: Lock, b: Lock)
    requires Below(base, a, goal) && Below(base, b, goal)
    ensures Merge(base, a, b) == Some(Lub(base, a, b))
    ensures Below(base, a, Lub(base, a, b)) && Below(base, b, Lub(base, a, b))
    ensures Below(base, Lub(base, a, b), goal)
    ensures forall c :: Below(base, a, c) && Below(base, b, c) ==> Below(base, Lub(base, a, b), c)
  {
    MergeIsLeastUpperBound(base, a, b);
  }

  lemma HoldsResultLater(c: Config, goal: Lock, tip: Lock, tip': Lock, ws: Workspace, own: Lock)
    requires HoldsResult(c, goal, tip, ws, own)
    requires Below(c.base, tip, tip') && Below(c.base, tip, goal) && Below(c.base, tip', goal)
    ensures HoldsResult(c, goal, tip', ws, own)
  {
    LubFacts(c.base, goal, tip, own);
    LubFacts(c.base, goal, tip', own);
    BelowTransitive(c.base, tip, tip', Lub(c.base, tip', own));
    BelowTransitive(c.base, ws.lock.value, Lub(c.base, tip, own), Lub(c.base, tip', own));
  }

  /** The lock an attempt commits is the fetched tip's lock plus the worker's own result. */
  lemma PlannedLock(c: Config, goal: Lock, tip: Lock, ws: Workspace, own: Lock)
    requires HoldsResult(c, goal, tip, ws, own) && Below(c.base, tip, goal)
    ensures PlanLock(Some(c.base), Some(tip), ws.lock) == CommitLock(Some(Lub(c.base, tip, own)))
  {
    var local, lub := ws.lock.value, Lub(c.base, tip, own);
    LubFacts(c.base, goal, tip, own);
    BelowTransitive(c.base, local, lub, goal);
    if local == c.base {
      BelowAntisymmetric(c.base, own, c.base);
    }
    if tip == c.base {
      BaseIsIdentity(c.base, own);
      BelowAntisymmetric(c.base, own, local);
    } else {
      LubFacts(c.base, goal, local, tip);
      var m := Lub(c.base, local, tip);
      BelowTransitive(c.base, own, local, m);
      BelowAntisymmetric(c.base, m, lub);
    }
  }

  lemma OverlayHoldsResult(c: Config, goal: Lock, tip: Lock, local: Lock, own: Lock, files: map<Path, Entry>)
    requires own != c.base && Below(c.base, own, goal) && Below(c.base, tip, goal) && Below(c.base, local, tip)
    ensures HoldsResult(c, goal, tip, Workspace(Some(Overlay(c.base, own, local)), files), own)
  {
    var result := Overlay(c.base, own, local);
    var lub := Lub(c.base, tip, own);
    LubFacts(c.base, goal, tip, own);
    forall k ensures Lookup(result, k)
                  == if Lookup(own, k) != Lookup(c.base, k) then Lookup(own, k) else Lookup(local, k) {
    }
    forall k ensures Lookup(result, k) == Lookup(c.base, k) || Lookup(result, k) == Lookup(lub, k) {
      assert Lookup(own, k) == Lookup(c.base, k) || Lookup(own, k) == Lookup(lub, k);
      assert Lookup(local, k) == Lookup(c.base, k) || Lookup(local, k) == Lookup(tip, k);
      assert Lookup(tip, k) == Lookup(c.base, k) || Lookup(tip, k) == Lookup(lub, k);
    }
  }

  /** Synchronising a checkout that holds nothing new brings it to the branch's lock or leaves it,
      from any merge base whose lock the checkout contains. */
  lemma SyncedLock(base: Lock, mergeBase: Lock, head: Option<Lock>, tip: Lock, local: Lock)
    requires Below(base, local, tip) && Below(base, mergeBase, local)
    ensures SyncLock(Some(mergeBase), head, Some(tip), Some(local))
         == Synced(Some(if head == Some(tip) then local else tip))
  {
    forall k ensures ResolveAt(mergeBase, local, tip, k) == Keep(Lookup(tip, k)) {
      assert Lookup(local, k) == Lookup(base, k) || Lookup(local, k) == Lookup(tip, k);
      assert Lookup(mergeBase, k) == Lookup(base, k) || Lookup(mergeBase, k) == Lookup(local, k);
    }
    MergeUnique(mergeBase, local, tip, tip);
  }

  /** Some lock holds the changes of both. */
  ghost predicate Reconcilable(o: Lock, a: Lock, b: Lock) {
    exists c :: Below(o, a, c) && Below(o, b, c)
  }

  lemma MergeableIffReconcilable(o: Lock, a: Lock, b: Lock)
    ensures Merge(o, a, b).Some? <==> Reconcilable(o, a, b)
  {
    MergeIsLeastUpperBound(o, a, b);
  }

  /** When a sync of a local lock fails: HEAD and the branch differ, and the branch has no lock or
      one whose changes since the merge base contradict the local ones. */
  lemma SyncFailsExactly(base: Option<Lock>, head: Option<Lock>, remote: Option<Lock>, local: Lock)
    ensures SyncLock(base, head, remote, Some(local)).SyncError? <==>
            && head != remote
            && (remote.None? || (base.Some? && !Reconcilable(base.value, local, remote.value)))
  {
    if base.Some? && remote.Some? {
      var o, theirs := base.value, remote.value;
      MergeableIffReconcilable(o, local, theirs);
      if local == o || theirs == o { assert Below(o, local, if local == o then theirs else local); }
    }
  }

  /** A sync that moves HEAD to a branch that changed the lock leaves the changes of both sides, and
      nothing that neither has. */
  lemma SyncMerges(o: Lock, head: Option<Lock>, remote: Lock, local: Lock)
    requires head != Some(remote) && o != remote && Reconcilable(o, local, remote)
    ensures var r := SyncLock(Some(o), head, Some(remote), Some(local));
            && r.Synced? && r.lock.Some?
            && Below(o, local, r.lock.value) && Below(o, remote, r.lock.value)
            && forall c :: Below(o, local, c) && Below(o, remote, c) ==> Below(o, r.lock.value, c)
  {
    MergeIsLeastUpperBound(o, local, remote);
    BaseIsIdentity(o, remote);
  }

  /** A sync that succeeds keeps the local changes if and only if HEAD has the branch's lock, there
      are none, or the branch changed the lock since the merge base; if it did not, the branch's
      lock takes them out. */
  lemma SyncKeepsLocalChangesExactly(o: Lock, head: Option<Lock>, remote: Lock, local: Lock)
    requires SyncLock(Some(o), head, Some(remote), Some(local)).Synced?
    ensures var lock := SyncLock(Some(o), head, Some(remote), Some(local)).lock;
            && lock.Some?
            && (Below(o, local, lock.value) <==> head == Some(remote) || local == o || o != remote)
  {
    MergeIsLeastUpperBound(o, local, remote);
    if o == remote && local != o && Below(o, local, o) { BelowAntisymmetric(o, local, o); }
  }

  // ---------------------------------------------------------------- every step keeps the invariant

  lemma Append(c: Config, goal: Lock, history: seq<Tree>, tree: Tree)
    requires HistoryOk(c, goal, history)
    requires tree.lock.Some? && Below(c.base, tree.lock.value, goal)
    requires Below(c.base, history[|history| - 1].lock.value, tree.lock.value)
    ensures HistoryOk(c, goal, history + [tree])
  {
    var h := history + [tree];
    forall j, k | c.start <= j <= k < |h| ensures Below(c.base, h[j].lock.value, h[k].lock.value) {
      if j < k == |history| {
        BelowTransitive(c.base, h[j].lock.value, h[|history| - 1].lock.value, h[k].lock.value);
      }
    }
  }

  lemma WorkerLater(c: Config, goal: Lock, history: seq<Tree>, tree: Tree, w: Worker)
    requires HistoryOk(c, goal, history) && HistoryOk(c, goal, history + [tree])
    requires WorkerOk(c, goal, history, w)
    ensures WorkerOk(c, goal, history + [tree], w)
  {
    var h := history + [tree];
    assert h[|history|] == tree && tree.lock.Some?;
    assert Below(c.base, h[|history| - 1].lock.value, h[|history|].lock.value);
    var tip, tip' := history[|history| - 1].lock.value, tree.lock.value;
    match w.phase
    case Working => BelowTransitive(c.base, w.ws.lock.value, tip, tip');
    case Published(_, _) => BelowTransitive(c.base, w.ws.lock.value, tip, tip');
    case Ready(own, _) => HoldsResultLater(c, goal, tip, tip', w.ws, own);
    case Fetched(own, _, _, _) => HoldsResultLater(c, goal, tip, tip', w.ws, own);
    case _ =>
  }

  /** A commit whose lock adds one result, or nothing, to the tip's. */
  lemma AppendKeepsInvariant(c: Config, goal: Lock, s: State, tree: Tree, pushed: seq<Lock>)
    requires Invariant(c, goal, s)
    requires tree.lock.Some? && Below(c.base, tree.lock.value, goal)
    requires Below(c.base, Tip(s).lock.value, tree.lock.value)
    requires Fold(c.base, pushed) == tree.lock
    ensures Invariant(c, goal, State(s.history + [tree], s.workers, pushed))
  {
    Append(c, goal, s.history, tree);
    forall i | 0 <= i < |s.workers| ensures WorkerOk(c, goal, s.history + [tree], s.workers[i]) {
      WorkerLater(c, goal, s.history, tree, s.workers[i]);
    }
    forall i | 0 <= i < |s.workers| ensures AttemptsPaid(c, s.history + [tree], s.workers[i]) {
      assert AttemptsPaid(c, s.history, s.workers[i]);
    }
  }

  lemma ReplaceKeepsInvariant(c: Config, goal: Lock, s: State, i: nat, w: Worker)
    requires Invariant(c, goal, s) && i < |s.workers|
    requires WorkerOk(c, goal, s.history, w) && AttemptsPaid(c, s.history, w)
    ensures Invariant(c, goal, s.(workers := s.workers[i := w]))
  {
  }

  lemma SyncKeepsInvariant(c: Config, goal: Lock, s: State, e: Event)
    requires Invariant(c, goal, s) && Enabled(c, s, e) && e.Sync?
    ensures Invariant(c, goal, Step(c, s, e))
  {
    var w, tip := s.workers[e.worker], Tip(s).lock.value;
    SyncedLock(c.base, e.mergeBase, e.head, tip, w.ws.lock.value);
    var lock := if e.head == Some(tip) then w.ws.lock.value else tip;
    ReplaceKeepsInvariant(c, goal, s, e.worker, w.(ws := w.ws.(lock := Some(lock))));
  }

  lemma RanWorkerOk(c: Config, goal: Lock, history: seq<Tree>, before: Worker, w: Worker)
    requires HistoryOk(c, goal, history) && WorkerOk(c, goal, history, before)
    requires before.phase.Working? || before.phase.Published?
    requires w.phase.Ready? && LOCK_FILE in w.phase.targets
    requires w.phase.own != c.base && Below(c.base, w.phase.own, goal)
    requires w.ws == Workspace(Some(Overlay(c.base, w.phase.own, before.ws.lock.value)), w.ws.files)
    ensures WorkerOk(c, goal, history, w)
  {
    OverlayHoldsResult(c, goal, history[|history| - 1].lock.value, before.ws.lock.value, w.phase.own, w.ws.files);
  }

  lemma RunKeepsInvariant(c: Config, goal: Lock, s: State, e: Event)
    requires Invariant(c, goal, s) && Enabled(c, s, e) && e.RunNode? && Below(c.base, e.own, goal)
    ensures Invariant(c, goal, Step(c, s, e))
  {
    var w := Step(c, s, e).workers[e.worker];
    RanWorkerOk(c, goal, s.history, s.workers[e.worker], w);
    ReplaceKeepsInvariant(c, goal, s, e.worker, w);
  }

  lemma FetchKeepsInvariant(c: Config, goal: Lock, s: State, e: Event)
    requires Invariant(c, goal, s) && Enabled(c, s, e) && e.Fetch?
    ensures Invariant(c, goal, Step(c, s, e))
  {
    var w, tip := s.workers[e.worker], Tip(s);
    var own, targets := w.phase.own, w.phase.targets;
    var lub := Lub(c.base, tip.lock.value, own);
    PlannedLock(c, goal, tip.lock.value, w.ws, own);
    LubFacts(c.base, goal, tip.lock.value, own);
    var ws := w.ws.(lock := Some(lub));
    StagedLock(tip, w.ws, Some(lub), targets);
    StagingIgnoresLock(tip, w.ws, ws, Some(lub), targets);
    ReplaceKeepsInvariant(c, goal, s, e.worker, FetchStep(c, s, w));
  }

  lemma {:induction false} StagingIgnoresLock(tip: Tree, ws: Workspace, ws': Workspace, lock: Option<Lock>,
                                              targets: seq<Path>)
    requires ws'.files == ws.files
    ensures StageFiles(tip, ws', lock, targets) == StageFiles(tip, ws, lock, targets)
  {
    if targets != [] { StagingIgnoresLock(tip, ws, ws', lock, targets[..|targets| - 1]); }
  }

  /** The commit a worker prepared on the current tip adds its result to the tip's lock. */
  lemma PreparedCommit(c: Config, goal: Lock, s: State, w: Worker)
    requires Invariant(c, goal, s) && WorkerOk(c, goal, s.history, w) && Current(s, w)
    ensures w.phase.tree.lock == w.ws.lock == Some(Lub(c.base, Tip(s).lock.value, w.phase.own))
    ensures Below(c.base, Tip(s).lock.value, w.ws.lock.value) && Below(c.base, w.phase.own, w.ws.lock.value)
    ensures Below(c.base, w.ws.lock.value, goal)
    ensures Fold(c.base, s.pushed + [w.phase.own]) == w.phase.tree.lock
  {
    var tip, own := Tip(s), w.phase.own;
    LubFacts(c.base, goal, tip.lock.value, own);
    StagedLock(tip, w.ws, w.ws.lock, w.phase.targets);
    var pushed := s.pushed + [own];
    assert pushed[..|pushed| - 1] == s.pushed;
  }

  lemma PushKeepsInvariant(c: Config, goal: Lock, s: State, e: Event)
    requires Invariant(c, goal, s) && Enabled(c, s, e) && e.Push?
    ensures Invariant(c, goal, Step(c, s, e))
  {
    var w := s.workers[e.worker];
    if Current(s, w) {
      PreparedCommit(c, goal, s, w);
      var s' := State(s.history + [w.phase.tree], s.workers, s.pushed + [w.phase.own]);
      AppendKeepsInvariant(c, goal, s, w.phase.tree, s'.pushed);
      ReplaceKeepsInvariant(c, goal, s', e.worker, w.(phase := Published(w.phase.own, |s.history|)));
    } else {
      ReplaceKeepsInvariant(c, goal, s, e.worker, Retry(c, w, w.phase.own, w.phase.targets));
    }
  }

  lemma UnconfirmedKeepsInvariant(c: Config, goal: Lock, s: State, e: Event)
    requires Invariant(c, goal, s) && Enabled(c, s, e) && e.PushUnconfirmed?
    ensures Invariant(c, goal, Step(c, s, e))
  {
    var w := s.workers[e.worker];
    var retried := Retry(c, w, w.phase.own, w.phase.targets);
    if Current(s, w) {
      PreparedCommit(c, goal, s, w);
      var s' := State(s.history + [w.phase.tree], s.workers, s.pushed + [w.phase.own]);
      AppendKeepsInvariant(c, goal, s, w.phase.tree, s'.pushed);
      ReplaceKeepsInvariant(c, goal, s', e.worker, retried);
    } else {
      ReplaceKeepsInvariant(c, goal, s, e.worker, retried);
    }
  }

  lemma FailureKeepsInvariant(c: Config, goal: Lock, s: State, e: Event)
    requires Invariant(c, goal, s) && Enabled(c, s, e) && (e.FetchFails? || e.PushFails?)
    ensures Invariant(c, goal, Step(c, s, e))
  {
    ReplaceKeepsInvariant(c, goal, s, e.worker, Step(c, s, e).workers[e.worker]);
  }

  lemma StepKeepsInvariant(c: Config, goal: Lock, s: State, e: Event)
    requires Invariant(c, goal, s) && Enabled(c, s, e)
    requires e.RunNode? ==> Below(c.base, e.own, goal)
    ensures Invariant(c, goal, Step(c, s, e))
  {
    match e
    case Sync(_, _, _) => SyncKeepsInvariant(c, goal, s, e);
    case RunNode(_, _, _, _) => RunKeepsInvariant(c, goal, s, e);
    case Fetch(_) => FetchKeepsInvariant(c, goal, s, e);
    case FetchFails(_) => FailureKeepsInvariant(c, goal, s, e);
    case Push(_) => PushKeepsInvariant(c, goal, s, e);
    case PushUnconfirmed(_) => UnconfirmedKeepsInvariant(c, goal, s, e);
    case PushFails(_) => FailureKeepsInvariant(c, goal, s, e);
    case HumanCommit(tree) => AppendKeepsInvariant(c, goal, s, tree, s.pushed);
  }

  // ---------------------------------------------------------------- whole runs

  ghost predicate IsRun(c: Config, states: seq<State>, events: seq<Event>) {
    && |states| == |events| + 1 && Initial(c, states[0])
    && forall i :: 0 <= i < |events| ==>
         Enabled(c, states[i], events[i]) && states[i + 1] == Step(c, states[i], events[i])
  }

  /** The results of all node runs. */
  function Results(events: seq<Event>): (r: seq<Lock>)
    ensures forall e :: e in events && e.RunNode? ==> e.own in r
  {
    if events == [] then []
    else
      var last := events[|events| - 1];
      assert events == events[..|events| - 1] + [last];
      Results(events[..|events| - 1]) + (if last.RunNode? then [last.own] else [])
  }

  /** No two node runs change the same lock entry to different values. */
  ghost predicate EntriesChangeOnce(c: Config, events: seq<Event>) {
    Compatible(c.base, Results(events))
  }

  lemma {:induction false} RunInvariant(c: Config, goal: Lock, states: seq<State>, events: seq<Event>, i: nat)
    requires IsRun(c, states, events) && i < |states|
    requires forall e :: e in events && e.RunNode? ==> Below(c.base, e.own, goal)
    ensures Invariant(c, goal, states[i])
  {
    if i == 0 {
      InitialInvariant(c, goal, states[0]);
    } else {
      RunInvariant(c, goal, states, events, i - 1);
      StepKeepsInvariant(c, goal, states[i - 1], events[i - 1]);
    }
  }

  /** The merge of all results of the run bounds each of them. */
  lemma Goal(c: Config, events: seq<Event>) returns (goal: Lock)
    requires EntriesChangeOnce(c, events)
    ensures forall e :: e in events && e.RunNode? ==> Below(c.base, e.own, goal)
  {
    FoldSucceedsIffCompatible(c.base, Results(events));
    FoldIsLeastUpperBound(c.base, Results(events));
    goal := Fold(c.base, Results(events)).value;
  }

  /** In every state of every interleaving: no worker has met a conflict; the branch's lock is the
      merge of exactly the pushed results; and a published result is in the lock of the commit
      that published it and of every later commit. */
  lemma PublicationIsSafe(c: Config, states: seq<State>, events: seq<Event>, i: nat)
    requires IsRun(c, states, events) && EntriesChangeOnce(c, events) && i < |states|
    ensures |states[i].history| > c.start
    ensures forall w :: w in states[i].workers ==> !w.phase.Conflicted? && !w.phase.SyncFailed?
    ensures Tip(states[i]).lock.Some? && Tip(states[i]).lock == Fold(c.base, states[i].pushed)
    ensures forall w, j :: w in states[i].workers && w.phase.Published? && w.phase.at <= j < |states[i].history| ==>
              states[i].history[j].lock.Some? && Below(c.base, w.phase.own, states[i].history[j].lock.value)
  {
    var goal := Goal(c, events);
    RunInvariant(c, goal, states, events, i);
    var s := states[i];
    forall w, j | w in s.workers && w.phase.Published? && w.phase.at <= j < |s.history|
      ensures s.history[j].lock.Some? && Below(c.base, w.phase.own, s.history[j].lock.value)
    {
      assert WorkerOk(c, goal, s.history, w);
      BelowTransitive(c.base, w.phase.own, s.history[w.phase.at].lock.value, s.history[j].lock.value);
    }
  }

  /** Commits are only ever appended. */
  lemma {:induction false} HistoryOnlyGrows(c: Config, states: seq<State>, events: seq<Event>, i: nat, j: nat)
    requires IsRun(c, states, events) && i <= j < |states|
    ensures states[i].history <= states[j].history
    decreases j
  {
    if i < j {
      HistoryOnlyGrows(c, states, events, i, j - 1);
      assert states[j] == Step(c, states[j - 1], events[j - 1]);
    }
  }

  /** The order of the pushes does not matter: two runs that pushed the same results end with the
      same lock on the branch. */
  lemma InterleavingsAgree(c: Config, states: seq<State>, events: seq<Event>, i: nat,
                           states': seq<State>, events': seq<Event>, i': nat)
    requires IsRun(c, states, events) && EntriesChangeOnce(c, events) && i < |states|
    requires IsRun(c, states', events') && EntriesChangeOnce(c, events') && i' < |states'|
    requires forall own :: own in states[i].pushed <==> own in states'[i'].pushed
    ensures states[i].history != [] && states'[i'].history != [] && Tip(states[i]).lock == Tip(states'[i']).lock
  {
    PublicationIsSafe(c, states, events, i);
    PublicationIsSafe(c, states', events', i');
    FoldIgnoresOrder(c.base, states[i].pushed, states'[i'].pushed);
  }

  /** A worker gives up only after as many transient errors and landed commits as the limit. */
  lemma GivingUpTakesCommits(c: Config, states: seq<State>, events: seq<Event>, i: nat)
    requires IsRun(c, states, events) && EntriesChangeOnce(c, events) && i < |states|
    ensures forall w :: w in states[i].workers && w.phase.Exhausted? ==>
              c.limit <= w.errors + |states[i].history| - w.since
  {
    var goal := Goal(c, events);
    RunInvariant(c, goal, states, events, i);
    forall w | w in states[i].workers && w.phase.Exhausted?
      ensures c.limit <= w.errors + |states[i].history| - w.since
    {
      assert AttemptsPaid(c, states[i].history, w);
    }
  }

  // ---------------------------------------------------------------- files outside the targets

  /** The path has kept its content since the start commit. */
  ghost predicate PathKept(c: Config, history: seq<Tree>, p: Path, content: Option<Blob>) {
    forall j :: c.start <= j < |history| ==> Lookup(history[j].files, p) == content
  }

  /** Nobody is about to push the path. */
  ghost predicate NotTargeted(s: State, p: Path) {
    forall w :: w in s.workers && (w.phase.Ready? || w.phase.Fetched?) ==> p !in w.phase.targets
  }

  lemma StepKeepsPath(c: Config, goal: Lock, s: State, e: Event, p: Path, content: Option<Blob>)
    requires Invariant(c, goal, s) && Enabled(c, s, e) && p != LOCK_FILE
    requires PathKept(c, s.history, p, content) && NotTargeted(s, p)
    requires e.HumanCommit? ==> Lookup(e.tree.files, p) == content
    ensures PathKept(c, Step(c, s, e).history, p, content)
  {
    if (e.Push? || e.PushUnconfirmed?) && Current(s, s.workers[e.worker]) {
      var w := s.workers[e.worker];
      assert WorkerOk(c, goal, s.history, w) && w in s.workers;
      StagedFiles(Tip(s), w.ws, w.ws.lock, w.phase.targets, p);
    }
  }

  lemma StepKeepsNotTargeted(c: Config, s: State, e: Event, p: Path)
    requires Enabled(c, s, e) && NotTargeted(s, p)
    requires e.RunNode? ==> p !in e.targets
    ensures NotTargeted(Step(c, s, e), p)
  {
    var s' := Step(c, s, e);
    if !e.HumanCommit? {
      var w, w' := s.workers[e.worker], s'.workers[e.worker];
      assert w in s.workers;
      assert s'.workers == s.workers[e.worker := w'];
      assert forall v :: v in s'.workers ==> v in s.workers || v == w';
    }
  }

  /** What a step may not do with a path that is to keep its content. */
  predicate Leaves(e: Event, p: Path, content: Option<Blob>) {
    && (e.RunNode? ==> p !in e.targets)
    && (e.HumanCommit? ==> Lookup(e.tree.files, p) == content)
  }

  lemma StepLeavesPath(c: Config, goal: Lock, s: State, e: Event, s': State, p: Path, content: Option<Blob>)
    requires Invariant(c, goal, s) && Enabled(c, s, e) && s' == Step(c, s, e) && p != LOCK_FILE && Leaves(e, p, content)
    requires PathKept(c, s.history, p, content) && NotTargeted(s, p)
    ensures PathKept(c, s'.history, p, content) && NotTargeted(s', p)
  {
    StepKeepsPath(c, goal, s, e, p, content);
    StepKeepsNotTargeted(c, s, e, p);
  }

  lemma RunStepLeavesPath(c: Config, states: seq<State>, events: seq<Event>, i: nat, p: Path, content: Option<Blob>)
    requires IsRun(c, states, events) && EntriesChangeOnce(c, events) && i < |events| && p != LOCK_FILE
    requires Leaves(events[i], p, content)
    requires PathKept(c, states[i].history, p, content) && NotTargeted(states[i], p)
    ensures PathKept(c, states[i + 1].history, p, content) && NotTargeted(states[i + 1], p)
  {
    var goal := Goal(c, events);
    RunInvariant(c, goal, states, events, i);
    StepLeavesPath(c, goal, states[i], events[i], states[i + 1], p, content);
  }

  /** A path that no node run lists among its targets and no person changes keeps its content
      through every push of every interleaving. */
  lemma {:induction false} OtherPathsKeepTheirContent(c: Config, states: seq<State>, events: seq<Event>, i: nat,
                                                      p: Path)
    requires IsRun(c, states, events) && EntriesChangeOnce(c, events) && i < |states| && p != LOCK_FILE
    requires forall e :: e in events ==> Leaves(e, p, Lookup(Tip(states[0]).files, p))
    ensures PathKept(c, states[i].history, p, Lookup(Tip(states[0]).files, p)) && NotTargeted(states[i], p)
  {
    if i > 0 {
      OtherPathsKeepTheirContent(c, states, events, i - 1, p);
      RunStepLeavesPath(c, states, events, i - 1, p, Lookup(Tip(states[0]).files, p));
    }
  }
}
