/** The shape of a job that propagation needs, exactly (src/scheduler/persistence.py). */
module DagExact {
  import opened Prelude
  import opened DagPropagation

  ghost predicate DependsOnOne(g: Graph, nodes: set<Node>, n: Node) {
    n in g && exists d :: d in g[n] && d in nodes
  }

  /** Nodes that each depend on one of them. */
  ghost predicate Looped(g: Graph, nodes: set<Node>) {
    && nodes != {} && nodes <= g.Keys
    && forall n {:trigger DependsOnOne(g, nodes, n)} :: n in nodes ==> DependsOnOne(g, nodes, n)
  }

  ghost predicate Acyclic(g: Graph) {
    !exists nodes :: Looped(g, nodes)
  }

  /** A chain with more nodes than the job has come back to one of them. */
  lemma LongChainLoops(g: Graph, c: seq<Node>) returns (nodes: set<Node>)
    requires DependencyChain(g, c) && |c| > |g.Keys|
    ensures Looped(g, nodes)
  {
    var i, j := Pigeonhole(c, g.Keys);
    nodes := set k | i < k <= j :: c[k];
    assert c[j] in nodes;
    forall n | n in nodes ensures DependsOnOne(g, nodes, n) {
      var k :| i < k <= j && c[k] == n;
      assert c[k - 1] in g[c[k]];
      assert k - 1 > i ==> c[k - 1] in nodes;
    }
  }

  lemma AcyclicBoundsChains(g: Graph)
    requires Acyclic(g)
    ensures ChainsBounded(g, |g.Keys|)
  {
    forall c | DependencyChain(g, c) ensures |c| <= |g.Keys| {
      if |c| > |g.Keys| { var nodes := LongChainLoops(g, c); }
    }
  }

  /** Some rows in a status, all others skipped. */
  function Others(g: Graph, nodes: set<Node>, status: Status): Statuses {
    map n | n in g :: if n in nodes then status else Skipped
  }

  // ---------------------------------------------------------------- blocked nodes

  /** Whoever is blocked at rest is reached by a failure. */
  ghost predicate BlocksRightly(g: Graph) {
    forall st: Statuses :: st.Keys == g.Keys && Fixpoint(g, st) ==>
      forall n :: n in g ==> (st[n].Blocked? <==> ReachedByFailure(g, st, n))
  }

  lemma LoopedNodeIsSettled(g: Graph, nodes: set<Node>, n: Node)
    requires Looped(g, nodes) && n in g
    ensures Settled(g, Others(g, nodes, Blocked), n)
  {
    if n in nodes {
      assert DependsOnOne(g, nodes, n);
      var d :| d in g[n] && d in nodes;
      assert SomeParentBroken(Others(g, nodes, Blocked), g[n]);
    }
  }

  lemma NothingFailsHere(g: Graph, st: Statuses, n: Node)
    requires forall m :: m in st ==> !st[m].Failed?
    ensures !ReachedByFailure(g, st, n)
  {
  }

  lemma LoopStaysBlocked(g: Graph, nodes: set<Node>)
    requires Looped(g, nodes)
    ensures !BlocksRightly(g)
  {
    var st := Others(g, nodes, Blocked);
    forall n | n in g ensures Settled(g, st, n) { LoopedNodeIsSettled(g, nodes, n); }
    assert Fixpoint(g, st);
    var n :| n in nodes;
    NothingFailsHere(g, st, n);
    assert st[n].Blocked?;
  }

  /** Blocked nodes are exactly those that a failure reaches, in every state that propagation leaves
      alone, if and only if the job has no cycle. */
  lemma BlocksRightlyExactly(g: Graph)
    ensures BlocksRightly(g) <==> Acyclic(g)
  {
    if Acyclic(g) {
      AcyclicBoundsChains(g);
      forall st: Statuses, n | st.Keys == g.Keys && Fixpoint(g, st) && n in g
        ensures st[n].Blocked? <==> ReachedByFailure(g, st, n)
      {
        BlockedIffReached(g, st, n, |g.Keys|);
      }
    } else {
      var nodes :| Looped(g, nodes);
      LoopStaysBlocked(g, nodes);
    }
  }

  // ---------------------------------------------------------------- the aggregated status

  /** What the aggregated status of a job says is so, and it says something. */
  ghost predicate Truthful(job: JobStatus, st: Statuses) {
    && (Aggregate(job, st).JobCompleted? <==> forall n :: n in st ==> Succeeded(st[n]))
    && (Aggregate(job, st).JobRunning? <==>
         exists n :: n in st && (st[n].Ready? || st[n].Running? || st[n].Preempting?))
    && (Aggregate(job, st).JobCompleted? || Aggregate(job, st).JobRunning? || Aggregate(job, st).JobFailed?)
    && (Aggregate(job, st).JobFailed? ==> exists n :: n in st && st[n].Failed?)
  }

  ghost predicate NeverStuck(g: Graph, job: JobStatus) {
    forall st: Statuses :: st.Keys == g.Keys && Fixpoint(g, st) ==> Truthful(job, st)
  }

  ghost predicate WaitsForOne(g: Graph, nodes: set<Node>, n: Node) {
    n in g && exists d :: d in g[n] && (d in nodes || d !in g)
  }

  lemma WaitingNodeIsSettled(g: Graph, nodes: set<Node>, n: Node)
    requires nodes <= g.Keys && n in g && (n in nodes ==> WaitsForOne(g, nodes, n))
    ensures Settled(g, Others(g, nodes, Pending), n)
  {
    if n in nodes {
      var st := Others(g, nodes, Pending);
      var d :| d in g[n] && (d in nodes || d !in g);
      assert !AllParentsSucceeded(st, g[n]) && !SomeParentBroken(st, g[n]);
    }
  }

  lemma OnlyPendingIsUntruthful(job: JobStatus, st: Statuses, n: Node)
    requires n in st && st[n].Pending? && forall m :: m in st ==> st[m].Pending? || st[m].Skipped?
    requires !job.JobFailed? && !job.JobCompleted?
    ensures !Truthful(job, st)
  {
    assert Aggregate(job, st) == JobPending;
  }

  /** Nodes that wait for each other, or for a node without a row, wait for ever. */
  lemma WaitingStays(g: Graph, nodes: set<Node>, job: JobStatus)
    requires nodes != {} && nodes <= g.Keys && !job.JobFailed? && !job.JobCompleted?
    requires forall n {:trigger WaitsForOne(g, nodes, n)} :: n in nodes ==> WaitsForOne(g, nodes, n)
    ensures !NeverStuck(g, job)
  {
    var st := Others(g, nodes, Pending);
    forall n | n in g ensures Settled(g, st, n) {
      assert n in nodes ==> WaitsForOne(g, nodes, n);
      WaitingNodeIsSettled(g, nodes, n);
    }
    assert Fixpoint(g, st);
    var n :| n in nodes;
    OnlyPendingIsUntruthful(job, st, n);
  }

  /** A job without rows keeps the status it has, although nothing is left to do. */
  lemma EmptyJobSticks(g: Graph, job: JobStatus)
    requires g == map[] && !job.JobFailed? && !job.JobCompleted?
    ensures !NeverStuck(g, job)
  {
    var st: Statuses := map[];
    assert st.Keys == g.Keys && Fixpoint(g, st);
    assert Aggregate(job, st) == job && !Truthful(job, st);
  }

  /** No job that was not ended explicitly ever sticks if and only if it has a row, every dependency
      has one, and there is no cycle. */
  lemma NeverStuckExactly(g: Graph, job: JobStatus)
    requires !job.JobFailed? && !job.JobCompleted?
    ensures NeverStuck(g, job) <==> g != map[] && ClosedGraph(g) && Acyclic(g)
  {
    if g == map[] {
      EmptyJobSticks(g, job);
    } else if !ClosedGraph(g) {
      var n, d :| n in g && d in g[n] && d !in g;
      assert WaitsForOne(g, {n}, n);
      WaitingStays(g, {n}, job);
    } else if !Acyclic(g) {
      var nodes :| Looped(g, nodes);
      forall n | n in nodes ensures WaitsForOne(g, nodes, n) { assert DependsOnOne(g, nodes, n); }
      WaitingStays(g, nodes, job);
    } else {
      AcyclicBoundsChains(g);
      forall st: Statuses | st.Keys == g.Keys && Fixpoint(g, st) ensures Truthful(job, st) {
        var n :| n in g;
        assert n in st;
        NoStuckJob(g, st, job, |g.Keys|);
      }
    }
  }
}
