/** The branch on the remote and a worker's checkout as objects: the bounded retry loop of
    push_with_retries in targeted mode and the dvc.lock part of sync_before_node
    (src/runner/dvc_git_helper.py). Git and the network are parameters: what each round's fetch
    and push meet, and which commits of others land in between. */
module PublicationStore {
  import opened Prelude
  import opened LockMerge
  import opened LockAlgebra
  import opened Publication
  import opened PublicationRuns

  /** One round of the loop as the network sees it. */
  datatype Round = Round(fetched: bool, landed: seq<Tree>, delivered: bool)

  datatype PushResult = NothingToPush | PushedAt(at: nat) | MergeConflict | GaveUp

  datatype Outcome = Outcome(history: seq<Tree>, ws: Workspace, result: PushResult)

  /** One round: fetch, prepare on the fetched tip, let the others land, compare and swap. */
  function PlayRound(base: Option<Lock>, history: seq<Tree>, ws: Workspace, targets: seq<Path>, r: Round): Outcome
    requires history != []
  {
    if !r.fetched then Outcome(history, ws, GaveUp)
    else
      var tip := history[|history| - 1];
      match Prepare(base, tip, ws, targets)
      case Conflict => Outcome(history, ws, MergeConflict)
      case Prepared(tree, ws') =>
        if tree == tip then Outcome(history, ws', PushedAt(|history| - 1))
        else if r.landed == [] && r.delivered then Outcome(history + [tree], ws', PushedAt(|history|))
        else Outcome(history + r.landed, ws', GaveUp)
  }

  /** The rounds one after the other, until one decides. */
  function PlayRounds(base: Option<Lock>, history: seq<Tree>, ws: Workspace, targets: seq<Path>,
                      rounds: seq<Round>): (r: Outcome)
    requires history != []
    ensures r.history != [] && history <= r.history
  {
    if rounds == [] then Outcome(history, ws, GaveUp)
    else
      var before := PlayRounds(base, history, ws, targets, rounds[..|rounds| - 1]);
      if before.result.GaveUp? then PlayRound(base, before.history, before.ws, targets, rounds[|rounds| - 1])
      else before
  }

  // ---------------------------------------------------------------- the lock that a push commits

  /** What becomes of a lock that is planned on one tip after the other. */
  function Carried(base: Option<Lock>, own: Option<Lock>, tips: seq<Tree>): LockPlan {
    if tips == [] then CommitLock(own)
    else
      match Carried(base, own, tips[..|tips| - 1])
      case CommitLock(lock) => PlanLock(base, tips[|tips| - 1].lock, lock)
      case LockConflict => LockConflict
  }

  ghost predicate AreTips(tips: seq<Tree>, history: seq<Tree>) {
    forall t :: t in tips ==> t in history
  }

  /** The worker's own lock, or what plans on earlier tips of the branch have made of it. */
  ghost predicate IsOwnLock(base: Option<Lock>, own: Option<Lock>, targets: seq<Path>, history: seq<Tree>,
                            lock: Option<Lock>) {
    if LOCK_FILE in targets then exists tips :: AreTips(tips, history) && Carried(base, own, tips) == CommitLock(lock)
    else lock == own
  }

  lemma LaterHistory(base: Option<Lock>, own: Option<Lock>, targets: seq<Path>, history: seq<Tree>, more: seq<Tree>,
                     lock: Option<Lock>)
    requires IsOwnLock(base, own, targets, history, lock)
    ensures IsOwnLock(base, own, targets, history + more, lock)
  {
    if LOCK_FILE in targets {
      var tips :| AreTips(tips, history) && Carried(base, own, tips) == CommitLock(lock);
      assert AreTips(tips, history + more);
    }
  }

  lemma PreparedLockIsOwn(base: Option<Lock>, own: Option<Lock>, targets: seq<Path>, history: seq<Tree>, ws: Workspace)
    requires history != [] && IsOwnLock(base, own, targets, history, ws.lock)
    ensures match Prepare(base, history[|history| - 1], ws, targets)
            case Prepared(_, ws') => IsOwnLock(base, own, targets, history, ws'.lock)
            case Conflict => true
  {
    if LOCK_FILE in targets {
      var tips :| AreTips(tips, history) && Carried(base, own, tips) == CommitLock(ws.lock);
      var tip := history[|history| - 1];
      assert (tips + [tip])[..|tips|] == tips;
      assert AreTips(tips + [tip], history);
    }
  }

  lemma RoundExtends(base: Option<Lock>, history: seq<Tree>, ws: Workspace, targets: seq<Path>, r: Round)
    returns (more: seq<Tree>)
    requires history != []
    ensures PlayRound(base, history, ws, targets, r).history == history + more
  {
    more := PlayRound(base, history, ws, targets, r).history[|history|..];
  }

  lemma RoundCarriesLock(base: Option<Lock>, own: Option<Lock>, history: seq<Tree>, ws: Workspace, targets: seq<Path>,
                         r: Round)
    requires history != [] && IsOwnLock(base, own, targets, history, ws.lock)
    ensures var o := PlayRound(base, history, ws, targets, r);
            o.ws.files == ws.files && IsOwnLock(base, own, targets, o.history, o.ws.lock)
  {
    var o := PlayRound(base, history, ws, targets, r);
    PreparedLockIsOwn(base, own, targets, history, ws);
    var more := RoundExtends(base, history, ws, targets, r);
    LaterHistory(base, own, targets, history, more, o.ws.lock);
  }

  lemma {:induction false} RoundsCarryLock(base: Option<Lock>, history: seq<Tree>, ws: Workspace, targets: seq<Path>,
                                           rounds: seq<Round>)
    requires history != []
    ensures var o := PlayRounds(base, history, ws, targets, rounds);
            o.ws.files == ws.files && IsOwnLock(base, ws.lock, targets, o.history, o.ws.lock)
  {
    if rounds == [] {
      var none: seq<Tree> := [];
      assert AreTips(none, history) && Carried(base, ws.lock, none) == CommitLock(ws.lock);
    } else {
      RoundsCarryLock(base, history, ws, targets, rounds[..|rounds| - 1]);
      var before := PlayRounds(base, history, ws, targets, rounds[..|rounds| - 1]);
      RoundCarriesLock(base, ws.lock, before.history, before.ws, targets, rounds[|rounds| - 1]);
    }
  }

  /** The tree at a commit was prepared from the worker's files and its lock on that commit, which
      had the tree already, or on the one before. */
  ghost predicate PreparedOn(base: Option<Lock>, ws: Workspace, targets: seq<Path>, r: Outcome, tip: Tree,
                             lock: Option<Lock>)
    requires r.result.PushedAt? && r.result.at < |r.history|
  {
    && IsOwnLock(base, ws.lock, targets, r.history, lock)
    && Prepare(base, tip, ws.(lock := lock), targets) == Prepared(r.history[r.result.at], r.ws)
    && (tip == r.history[r.result.at] || (r.result.at > 0 && tip == r.history[r.result.at - 1]))
  }

  lemma RoundPrepares(base: Option<Lock>, own: Workspace, history: seq<Tree>, ws: Workspace, targets: seq<Path>,
                      r: Round)
    requires history != [] && ws.files == own.files && IsOwnLock(base, own.lock, targets, history, ws.lock)
    ensures var o := PlayRound(base, history, ws, targets, r);
            o.result.PushedAt? ==>
              o.result.at < |o.history| && PreparedOn(base, own, targets, o, history[|history| - 1], ws.lock)
  {
    var o := PlayRound(base, history, ws, targets, r);
    if o.result.PushedAt? {
      var more := RoundExtends(base, history, ws, targets, r);
      LaterHistory(base, own.lock, targets, history, more, ws.lock);
      assert ws == own.(lock := ws.lock);
    }
  }

  /** A push that reports success has its tree at the reported commit, prepared from the worker's
      own files and lock on the commit before it, unless that tip had the same tree already. */
  lemma {:induction false} SuccessIsPrepared(base: Option<Lock>, history: seq<Tree>, ws: Workspace,
                                             targets: seq<Path>, rounds: seq<Round>)
    requires history != []
    ensures PlayRounds(base, history, ws, targets, rounds).ws.files == ws.files
    ensures var r := PlayRounds(base, history, ws, targets, rounds);
            r.result.PushedAt? ==>
              r.result.at < |r.history| && exists tip, lock :: PreparedOn(base, ws, targets, r, tip, lock)
  {
    RoundsCarryLock(base, history, ws, targets, rounds);
    if rounds != [] {
      SuccessIsPrepared(base, history, ws, targets, rounds[..|rounds| - 1]);
      var before := PlayRounds(base, history, ws, targets, rounds[..|rounds| - 1]);
      RoundsCarryLock(base, history, ws, targets, rounds[..|rounds| - 1]);
      if before.result.GaveUp? {
        RoundPrepares(base, ws, before.history, before.ws, targets, rounds[|rounds| - 1]);
      }
    }
  }

  /** The locks of trees that have one. */
  function LocksOf(tips: seq<Tree>): seq<Lock>
    requires forall t :: t in tips ==> t.lock.Some?
  {
    seq(|tips|, i requires 0 <= i < |tips| => tips[i].lock.value)
  }

  lemma PlanIsMerge(o: Lock, m: Lock, r: Lock)
    requires m != o
    ensures PlanLock(Some(o), Some(r), Some(m))
         == match Merge(o, m, r) case Some(l) => CommitLock(Some(l)) case None => LockConflict
  {
    if r == o { BaseIsIdentity(o, m); }
  }

  /** What a changed lock is merged to is changed as well. */
  lemma FoldIsChanged(o: Lock, own: Lock, locks: seq<Lock>)
    requires own != o
    ensures Fold(o, [own] + locks) != Some(o)
  {
    FoldIsLeastUpperBound(o, [own] + locks);
    assert own in [own] + locks;
    if Fold(o, [own] + locks) == Some(o) { BelowAntisymmetric(o, own, o); }
  }

  lemma FoldOneMore(o: Lock, own: Lock, locks: seq<Lock>, last: Lock)
    ensures Fold(o, [own] + (locks + [last])) == Join(o, Fold(o, [own] + locks), Some(last))
    ensures Fold(o, [own]) == Some(own)
  {
    var all := [own] + (locks + [last]);
    assert all[..|all| - 1] == [own] + locks;
    assert [own][..0] == [];
    BaseIsIdentity(o, own);
  }

  /** Planning a changed lock on tips that have one is merging it with all of them. */
  lemma {:induction false} CarriedIsMerge(o: Lock, own: Lock, tips: seq<Tree>)
    requires own != o && forall t :: t in tips ==> t.lock.Some?
    ensures Carried(Some(o), Some(own), tips)
         == match Fold(o, [own] + LocksOf(tips)) case Some(m) => CommitLock(Some(m)) case None => LockConflict
  {
    if tips == [] {
      FoldOneMore(o, own, [], own);
      assert [own] + LocksOf(tips) == [own];
    } else {
      var front, last := tips[..|tips| - 1], tips[|tips| - 1].lock.value;
      CarriedIsMerge(o, own, front);
      assert LocksOf(tips) == LocksOf(front) + [last];
      FoldOneMore(o, own, LocksOf(front), last);
      FoldIsChanged(o, own, LocksOf(front));
      var m := Fold(o, [own] + LocksOf(front));
      if m.Some? { PlanIsMerge(o, m.value, last); }
    }
  }

  /** The commit holds the merge of the worker's own lock with tips of the branch, the last of which
      is the commit before it or has the same tree. */
  ghost predicate HoldsMerge(o: Lock, own: Lock, history: seq<Tree>, at: nat)
    requires at < |history|
  {
    exists tips: seq<Tree> ::
      && AreTips(tips, history) && (forall t :: t in tips ==> t.lock.Some?)
      && history[at].lock.Some? && Fold(o, [own] + LocksOf(tips)) == history[at].lock
      && tips != [] && (tips[|tips| - 1] == history[at] || (at > 0 && tips[|tips| - 1] == history[at - 1]))
  }

  lemma PreparedLock(base: Option<Lock>, tip: Tree, ws: Workspace, targets: seq<Path>, tree: Tree, ws': Workspace)
    requires LOCK_FILE in targets && Prepare(base, tip, ws, targets) == Prepared(tree, ws')
    ensures PlanLock(base, tip.lock, ws.lock) == CommitLock(tree.lock)
  {
    StagedLock(tip, ws, PlanLock(base, tip.lock, ws.lock).lock, targets);
  }

  lemma PlanOnOneMore(base: Option<Lock>, own: Option<Lock>, tips: seq<Tree>, tip: Tree, lock: Option<Lock>)
    requires Carried(base, own, tips) == CommitLock(lock)
    ensures Carried(base, own, tips + [tip]) == PlanLock(base, tip.lock, lock)
  {
    assert (tips + [tip])[..|tips|] == tips;
  }

  lemma CarriedHoldsOwn(o: Lock, own: Lock, tips: seq<Tree>, lock: Option<Lock>)
    requires own != o && forall t :: t in tips ==> t.lock.Some?
    requires Carried(Some(o), Some(own), tips) == CommitLock(lock)
    ensures lock.Some? && Fold(o, [own] + LocksOf(tips)) == lock && Below(o, own, lock.value)
  {
    CarriedIsMerge(o, own, tips);
    FoldIsLeastUpperBound(o, [own] + LocksOf(tips));
    assert own in [own] + LocksOf(tips);
  }

  lemma PreparedHoldsMerge(o: Lock, ws: Workspace, targets: seq<Path>, r: Outcome, tip: Tree, lock: Option<Lock>)
    requires LOCK_FILE in targets && ws.lock.Some? && ws.lock != Some(o)
    requires r.result.PushedAt? && r.result.at < |r.history| && forall t :: t in r.history ==> t.lock.Some?
    requires PreparedOn(Some(o), ws, targets, r, tip, lock)
    ensures HoldsMerge(o, ws.lock.value, r.history, r.result.at)
    ensures Below(o, ws.lock.value, r.history[r.result.at].lock.value)
  {
    var tips :| AreTips(tips, r.history) && Carried(Some(o), ws.lock, tips) == CommitLock(lock);
    var tree := r.history[r.result.at];
    PreparedLock(Some(o), tip, ws.(lock := lock), targets, tree, r.ws);
    PlanOnOneMore(Some(o), ws.lock, tips, tip, lock);
    assert AreTips(tips + [tip], r.history);
    CarriedHoldsOwn(o, ws.lock.value, tips + [tip], tree.lock);
  }

  /** So a successful push of a changed lock to a branch with locks commits the merge of that lock
      with the tips that its rounds met, which holds all its changes. */
  lemma SuccessCommitsMerge(o: Lock, history: seq<Tree>, ws: Workspace, targets: seq<Path>, rounds: seq<Round>)
    requires history != [] && LOCK_FILE in targets && ws.lock.Some? && ws.lock != Some(o)
    requires var r := PlayRounds(Some(o), history, ws, targets, rounds);
             r.result.PushedAt? && forall t :: t in r.history ==> t.lock.Some?
    ensures var r := PlayRounds(Some(o), history, ws, targets, rounds);
            && r.result.at < |r.history| && HoldsMerge(o, ws.lock.value, r.history, r.result.at)
            && Below(o, ws.lock.value, r.history[r.result.at].lock.value)
  {
    SuccessIsPrepared(Some(o), history, ws, targets, rounds);
    var r := PlayRounds(Some(o), history, ws, targets, rounds);
    var tip, lock :| PreparedOn(Some(o), ws, targets, r, tip, lock);
    PreparedHoldsMerge(o, ws, targets, r, tip, lock);
  }

  /** A round is what the protocol's fetch and push steps do, whatever lands in between. */
  lemma RoundIsFetchThenPush(c: Config, s: State, i: nat, landed: seq<Tree>, others: State)
    requires s.history != [] && i < |s.workers| && s.workers[i].phase.Ready? && s.workers[i].attempts < c.limit
    requires var fetched := FetchStep(c, s, s.workers[i]);
             others.history == s.history + landed && i < |others.workers| && others.workers[i] == fetched
    ensures var fetched := FetchStep(c, s, s.workers[i]);
            var r := PlayRound(Some(c.base), s.history, s.workers[i].ws, s.workers[i].phase.targets,
                               Round(true, landed, true));
            match fetched.phase
            case Conflicted => r.result.MergeConflict?
            case Published(_, at) => r == Outcome(s.history, fetched.ws, PushedAt(at))
            case Fetched(_, _, _, _) =>
              && Enabled(c, others, Push(i))
              && var after := Step(c, others, Push(i));
                 && after.history == r.history && after.workers[i].ws == r.ws
                 && (r.result.PushedAt? <==> after.workers[i].phase.Published?)
            case _ => true
  {
    if landed == [] {
      assert s.history + landed == s.history;
    }
  }

  /** Once a round has decided, the later rounds are not played. */
  lemma {:induction false} FinishedRounds(base: Option<Lock>, history: seq<Tree>, ws: Workspace, targets: seq<Path>,
                                          rounds: seq<Round>, i: nat)
    requires history != [] && i <= |rounds|
    ensures !PlayRounds(base, history, ws, targets, rounds[..i]).result.GaveUp? ==>
              PlayRounds(base, history, ws, targets, rounds) == PlayRounds(base, history, ws, targets, rounds[..i])
    decreases |rounds|
  {
    if i == |rounds| {
      assert rounds[..i] == rounds;
    } else {
      assert rounds[..|rounds| - 1][..i] == rounds[..i];
      FinishedRounds(base, history, ws, targets, rounds[..|rounds| - 1], i);
    }
  }

  /** The round gets through: the tip is fetched, nobody else pushes, and the push is delivered. */
  predicate Unobstructed(r: Round) {
    r.fetched && r.landed == [] && r.delivered
  }

  /** A failed fetch costs a round and nothing else: the loop goes on as if it had not been. */
  lemma {:induction false} FailedFetchIsSkipped(base: Option<Lock>, history: seq<Tree>, ws: Workspace,
                                                targets: seq<Path>, a: seq<Round>, failed: Round, b: seq<Round>)
    requires history != [] && !failed.fetched
    ensures PlayRounds(base, history, ws, targets, a + [failed] + b) == PlayRounds(base, history, ws, targets, a + b)
  {
    var with, without := a + [failed] + b, a + b;
    if b == [] {
      assert with[..|with| - 1] == a && without == a;
    } else {
      var front := b[..|b| - 1];
      assert with[..|with| - 1] == a + [failed] + front && without[..|without| - 1] == a + front;
      FailedFetchIsSkipped(base, history, ws, targets, a, failed, front);
    }
  }

  /** The loop gives up only if an obstacle was met in every round: as soon as one round gets
      through, the push has succeeded or met a conflict of contents. */
  lemma {:induction false} GivingUpTakesObstacles(base: Option<Lock>, history: seq<Tree>, ws: Workspace,
                                                  targets: seq<Path>, rounds: seq<Round>, i: nat)
    requires history != [] && i < |rounds| && Unobstructed(rounds[i])
    ensures var o := PlayRounds(base, history, ws, targets, rounds); o.result.PushedAt? || o.result.MergeConflict?
    decreases |rounds|
  {
    var front := rounds[..|rounds| - 1];
    if i < |front| {
      GivingUpTakesObstacles(base, history, ws, targets, front, i);
    } else {
      NeverNothing(base, history, ws, targets, front);
    }
  }

  /** The worker's lock contradicts tips that it met. */
  ghost predicate Contradicted(base: Option<Lock>, own: Option<Lock>, history: seq<Tree>) {
    exists tips :: AreTips(tips, history) && Carried(base, own, tips).LockConflict?
  }

  lemma ContradictedLater(base: Option<Lock>, own: Option<Lock>, history: seq<Tree>, more: seq<Tree>)
    requires Contradicted(base, own, history)
    ensures Contradicted(base, own, history + more)
  {
    var tips :| AreTips(tips, history) && Carried(base, own, tips).LockConflict?;
    assert AreTips(tips, history + more);
  }

  lemma RoundConflicts(base: Option<Lock>, own: Option<Lock>, history: seq<Tree>, ws: Workspace, targets: seq<Path>,
                       r: Round)
    requires history != [] && IsOwnLock(base, own, targets, history, ws.lock)
    requires PlayRound(base, history, ws, targets, r).result.MergeConflict?
    ensures LOCK_FILE in targets && Contradicted(base, own, history)
  {
    var tips :| AreTips(tips, history) && Carried(base, own, tips) == CommitLock(ws.lock);
    var tip := history[|history| - 1];
    assert (tips + [tip])[..|tips|] == tips;
    assert AreTips(tips + [tip], history);
  }

  /** A conflict is reported only if the worker's lock contradicts tips of the branch. */
  lemma {:induction false} ConflictTakesContradiction(base: Option<Lock>, history: seq<Tree>, ws: Workspace,
                                                      targets: seq<Path>, rounds: seq<Round>)
    requires history != [] && PlayRounds(base, history, ws, targets, rounds).result.MergeConflict?
    ensures LOCK_FILE in targets
    ensures Contradicted(base, ws.lock, PlayRounds(base, history, ws, targets, rounds).history)
  {
    var front := rounds[..|rounds| - 1];
    var before := PlayRounds(base, history, ws, targets, front);
    if before.result.MergeConflict? {
      ConflictTakesContradiction(base, history, ws, targets, front);
    } else {
      RoundsCarryLock(base, history, ws, targets, front);
      RoundConflicts(base, ws.lock, before.history, before.ws, targets, rounds[|rounds| - 1]);
      var more := RoundExtends(base, before.history, before.ws, targets, rounds[|rounds| - 1]);
      ContradictedLater(base, ws.lock, before.history, more);
    }
  }

  /** So a push of a changed lock to a branch with locks succeeds as soon as one of its rounds gets
      through, whatever the others met, if some lock holds all changes of its own and the branch's. */
  lemma PushSucceeds(o: Lock, goal: Lock, history: seq<Tree>, ws: Workspace, targets: seq<Path>, rounds: seq<Round>,
                     i: nat)
    requires history != [] && ws.lock.Some? && ws.lock != Some(o) && Below(o, ws.lock.value, goal)
    requires forall t :: t in PlayRounds(Some(o), history, ws, targets, rounds).history ==>
               t.lock.Some? && Below(o, t.lock.value, goal)
    requires i < |rounds| && Unobstructed(rounds[i])
    ensures PlayRounds(Some(o), history, ws, targets, rounds).result.PushedAt?
  {
    GivingUpTakesObstacles(Some(o), history, ws, targets, rounds, i);
    var r := PlayRounds(Some(o), history, ws, targets, rounds);
    if r.result.MergeConflict? {
      ConflictTakesContradiction(Some(o), history, ws, targets, rounds);
      var tips :| AreTips(tips, r.history) && Carried(Some(o), ws.lock, tips).LockConflict?;
      BoundedIsCarried(o, goal, ws.lock.value, tips);
    }
  }

  lemma BoundedIsCarried(o: Lock, goal: Lock, own: Lock, tips: seq<Tree>)
    requires own != o && Below(o, own, goal)
    requires forall t :: t in tips ==> t.lock.Some? && Below(o, t.lock.value, goal)
    ensures Carried(Some(o), Some(own), tips).CommitLock?
  {
    CarriedIsMerge(o, own, tips);
    FoldIsLeastUpperBound(o, [own] + LocksOf(tips));
    assert UpperBound(o, [own] + LocksOf(tips), goal);
  }

  lemma {:induction false} NeverNothing(base: Option<Lock>, history: seq<Tree>, ws: Workspace, targets: seq<Path>,
                                        rounds: seq<Round>)
    requires history != []
    ensures !PlayRounds(base, history, ws, targets, rounds).result.NothingToPush?
  {
    if rounds != [] { NeverNothing(base, history, ws, targets, rounds[..|rounds| - 1]); }
  }

  class Branch {
    var history: seq<Tree>

    constructor (start: Tree)
      ensures history == [start]
    {
      history := [start];
    }
  }

  /** An allowed output in which two trees differ. */
  predicate Differs(head: Tree, tip: Tree, allowed: set<Path>, f: Path) {
    f != LOCK_FILE && PathAllowed(f, allowed) && Lookup(head.files, f) != Lookup(tip.files, f)
  }

  /** What the branch makes of a path in the checkout. */
  function Restored(tip: Tree, f: Path): Option<Entry> {
    if f in tip.files then Some(File(tip.files[f])) else None
  }

  /** The differing outputs are the branch's, every other path is as it was. */
  ghost predicate FilesSynced(head: Tree, tip: Tree, allowed: set<Path>, before: map<Path, Entry>,
                              after: map<Path, Entry>) {
    forall p :: Lookup(after, p) == if Differs(head, tip, allowed, p) then Restored(tip, p) else Lookup(before, p)
  }

  /** Synchronising the files of a checkout: one that holds what HEAD holds has the branch's content
      at every allowed path afterwards, and its own at every other; and a path in which HEAD and the
      branch agree keeps what it holds, whatever that is. */
  lemma SyncBringsAllowedFiles(head: Tree, tip: Tree, allowed: set<Path>, before: map<Path, Entry>,
                               after: map<Path, Entry>, p: Path)
    requires FilesSynced(head, tip, allowed, before, after)
    ensures Lookup(head.files, p) == Lookup(tip.files, p) ==> Lookup(after, p) == Lookup(before, p)
    ensures !PathAllowed(p, allowed) || p == LOCK_FILE ==> Lookup(after, p) == Lookup(before, p)
    ensures PathAllowed(p, allowed) && p != LOCK_FILE
            && Lookup(before, p) == (if p in head.files then Some(File(head.files[p])) else None) ==>
              Lookup(after, p) == if p in tip.files then Some(File(tip.files[p])) else None
  {
  }

  class Checkout {
    var lock: Option<Lock>
    var files: map<Path, Entry>

    function Contents(): Workspace
      reads this
    {
      Workspace(lock, files)
    }

    constructor (tree: Tree)
      ensures lock == tree.lock && files == map p | p in tree.files :: File(tree.files[p])
    {
      lock, files := tree.lock, map p | p in tree.files :: File(tree.files[p]);
    }

    /** Step 3 of a push attempt: the temporary index, starting from the fetched tip. */
    method BuildTree(tip: Tree, targets: seq<Path>) returns (tree: Tree)
      ensures tree == StageFiles(tip, Contents(), lock, targets)
    {
      tree := tip;
      for i := 0 to |targets|
        invariant tree == StageFiles(tip, Contents(), lock, targets[..i])
      {
        assert targets[..i + 1][..i] == targets[..i];
        var f := targets[i];
        if f == LOCK_FILE {
          tree := tree.(lock := lock);
        } else if f in files && files[f].File? {
          tree := tree.(files := tree.files[f := files[f].content]);
        } else if f !in files {
          tree := tree.(files := map p | p in tree.files && p != f :: tree.files[p]);
        }
      }
      assert targets[..|targets|] == targets;
    }

    /** Step 2 of a push attempt: merge dvc.lock if both sides changed, and keep the result. */
    method MergeLock(base: Option<Lock>, remote: Option<Lock>, targets: seq<Path>) returns (ok: bool)
      modifies this`lock
      ensures ok <==> !(LOCK_FILE in targets && PlanLock(base, remote, old(lock)).LockConflict?)
      ensures lock == if LOCK_FILE in targets && ok then PlanLock(base, remote, old(lock)).lock else old(lock)
    {
      ok := true;
      if LOCK_FILE in targets && lock.Some? {
        var remoteMod := base.Some? && remote.Some? && base != remote;
        var localMod := base.None? || base != lock;
        if remoteMod && localMod {
          var merged := Merge(base.value, lock.value, remote.value);
          if merged.None? {
            return false;
          }
          lock := merged;
        }
      }
    }

    /** The body of the retry loop. */
    method Attempt(branch: Branch, base: Option<Lock>, targets: seq<Path>, round: Round) returns (result: PushResult)
      requires branch.history != []
      modifies this`lock, branch
      ensures Outcome(branch.history, Contents(), result)
           == PlayRound(base, old(branch.history), old(Contents()), targets, round)
    {
      ghost var ws := Contents();
      if !round.fetched {
        return GaveUp;
      }
      var tip := branch.history[|branch.history| - 1];
      var ok := MergeLock(base, tip.lock, targets);
      if !ok {
        return MergeConflict;
      }
      var tree := BuildTree(tip, targets);
      StagingIgnoresLock(tip, ws, Contents(), lock, targets);
      if tree == tip {
        return PushedAt(|branch.history| - 1);
      }
      branch.history := branch.history + round.landed;
      if round.landed == [] && round.delivered {
        branch.history := branch.history + [tree];
        return PushedAt(|branch.history| - 1);
      }
      return GaveUp;
    }

    /** push_with_retries, targeted mode; `rounds` has one entry per allowed attempt. */
    method PushWithRetries(branch: Branch, base: Option<Lock>, files: seq<Path>, allowed: set<Path>, rounds: seq<Round>)
      returns (result: PushResult)
      requires branch.history != []
      modifies this`lock, branch
      ensures Targets(files, allowed) == [] ==>
                result.NothingToPush? && branch.history == old(branch.history) && lock == old(lock)
      ensures Targets(files, allowed) != [] ==>
                Outcome(branch.history, Contents(), result)
                == PlayRounds(base, old(branch.history), old(Contents()), Targets(files, allowed), rounds)
    {
      var targets := Targets(files, allowed);
      if targets == [] {
        return NothingToPush;
      }
      result := GaveUp;
      for i := 0 to |rounds|
        invariant branch.history != []
        invariant result.GaveUp?
        invariant Outcome(branch.history, Contents(), result)
               == PlayRounds(base, old(branch.history), old(Contents()), targets, rounds[..i])
      {
        assert rounds[..i + 1][..i] == rounds[..i];
        result := Attempt(branch, base, targets, rounds[i]);
        if !result.GaveUp? {
          FinishedRounds(base, old(branch.history), old(Contents()), targets, rounds, i + 1);
          return;
        }
      }
      assert rounds[..|rounds|] == rounds;
    }

    /** _sync_dvc_lock: a merge when both sides changed since the merge base, otherwise the
        branch's lock. */
    method SyncLockFile(remote: Option<Lock>, base: Option<Lock>, head: Option<Lock>) returns (ok: bool)
      modifies this`lock
      ensures match SyncLock(base, head, remote, old(lock))
              case Synced(synced) => ok && lock == synced
              case SyncError => !ok && lock == old(lock)
    {
      if head == remote {
        return true;
      }
      var remoteModified := base.Some? && remote.Some? && base != remote;
      var localModified := lock.Some? && lock != base;
      if localModified && remoteModified {
        var merged := Merge(base.value, lock.value, remote.value);
        if merged.None? {
          return false;
        }
        lock := merged;
        return true;
      }
      if remote.None? {
        return false;
      }
      lock := remote;
      return true;
    }

    /** Restores one file from the branch, or removes it if the branch has none. */
    method RestoreFile(f: Path, tip: Tree)
      modifies this`files
      ensures forall p :: Lookup(files, p) == if p == f then Restored(tip, f) else Lookup(old(files), p)
    {
      if f in tip.files {
        files := files[f := File(tip.files[f])];
      } else {
        files := files - {f};
      }
    }

    /** sync_before_node: of the files in which HEAD and the branch differ, the allowed ones are
        restored from the branch, dvc.lock first; `base` is the lock of their merge base. */
    method SyncBeforeNode(branch: Branch, base: Option<Lock>, head: Tree, allowed: set<Path>) returns (ok: bool)
      requires branch.history != []
      modifies this`lock, this`files
      ensures var tip := branch.history[|branch.history| - 1];
              match SyncLock(base, head.lock, tip.lock, old(lock))
              case Synced(synced) => ok && lock == synced && FilesSynced(head, tip, allowed, old(files), files)
              case SyncError => !ok && lock == old(lock) && files == old(files)
    {
      var tip := branch.history[|branch.history| - 1];
      ok := SyncLockFile(tip.lock, base, head.lock);
      if !ok { return; }
      var rest := set f | f in head.files.Keys + tip.files.Keys && Differs(head, tip, allowed, f);
      var all := rest;
      ghost var synced := lock;
      while rest != {}
        invariant rest <= all && ok && lock == synced
        invariant forall p :: Lookup(files, p) == if p in all - rest then Restored(tip, p) else Lookup(old(files), p)
      {
        var f :| f in rest;
        RestoreFile(f, tip);
        rest := rest - {f};
      }
      forall p ensures p in all - rest <==> Differs(head, tip, allowed, p) {
      }
    }
  }
}
