/** Node statuses of one DAG job and the propagation pass over them
    (src/scheduler/persistence.py, update_dag_ready_states). */
module DagPropagation {
  import opened Prelude

  type Node = string

  datatype Status = Pending | Ready | Running | Preempting | Done | Skipped | Failed | Blocked

  /** Dependencies of every node of the job. */
  type Graph = map<Node, seq<Node>>

  type Statuses = map<Node, Status>

  /** The statuses the pass may rewrite. */
  predicate Open(s: Status) {
    s.Pending? || s.Ready? || s.Blocked?
  }

  predicate Succeeded(s: Status) {
    s.Done? || s.Skipped?
  }

  predicate Broken(s: Status) {
    s.Failed? || s.Blocked?
  }

  predicate SomeParentBroken(st: Statuses, deps: seq<Node>) {
    exists d :: d in deps && d in st && Broken(st[d])
  }

  /** A dependency without a row counts as not succeeded. */
  predicate AllParentsSucceeded(st: Statuses, deps: seq<Node>) {
    forall d :: d in deps ==> d in st && Succeeded(st[d])
  }

  /** What the loop body writes for one row. */
  function Decide(g: Graph, st: Statuses, n: Node): Status
    requires n in st && n in g
  {
    if !Open(st[n]) then st[n]
    else if g[n] == [] then Ready
    else if SomeParentBroken(st, g[n]) then Blocked
    else if AllParentsSucceeded(st, g[n]) then Ready
    else if st[n].Blocked? then Pending
    else st[n]
  }

  function Visit(g: Graph, st: Statuses, n: Node): Statuses
    requires n in st && n in g
  {
    st[n := Decide(g, st, n)]
  }

  /** The rows are visited in `order`; a later row sees the earlier writes. */
  function Pass(g: Graph, st: Statuses, order: seq<Node>): (r: Statuses)
    requires st.Keys == g.Keys
    requires forall n :: n in order ==> n in g
    ensures r.Keys == st.Keys
  {
    if order == [] then st
    else
      var last := |order| - 1;
      assert order[last] in order;
      Visit(g, Pass(g, st, order[..last]), order[last])
  }

  function Passes(g: Graph, st: Statuses, orders: seq<seq<Node>>): (r: Statuses)
    requires st.Keys == g.Keys
    requires forall o :: o in orders ==> Enumerates(o, g.Keys)
    ensures r.Keys == st.Keys
  {
    if orders == [] then st
    else
      assert Enumerates(orders[|orders| - 1], g.Keys);
      Pass(g, Passes(g, st, orders[..|orders| - 1]), orders[|orders| - 1])
  }

  // ---------------------------------------------------------------- reference notions

  /** A chain of dependencies inside the job, parents first. */
  ghost predicate DependencyChain(g: Graph, c: seq<Node>) {
    && (forall i :: 0 <= i < |c| ==> c[i] in g)
    && (forall i :: 1 <= i < |c| ==> c[i - 1] in g[c[i]])
  }

  /** No dependency chain has more than `bound` nodes; this makes the job acyclic. */
  ghost predicate ChainsBounded(g: Graph, bound: nat) {
    forall c :: DependencyChain(g, c) ==> |c| <= bound
  }

  /** Each listed node comes after its dependencies. */
  ghost predicate ParentsFirst(g: Graph, order: seq<Node>)
    requires forall n :: n in order ==> n in g
  {
    forall i, d :: 0 <= i < |order| && d in g[order[i]] && d in g ==> d in order[..i]
  }

  ghost predicate TopologicalOrder(g: Graph, order: seq<Node>) {
    Enumerates(order, g.Keys) && ParentsFirst(g, order)
  }

  /** A dependency chain from a failed node through open nodes only. */
  ghost predicate FailureChain(g: Graph, st: Statuses, c: seq<Node>) {
    && |c| >= 2
    && DependencyChain(g, c)
    && (forall i :: 0 <= i < |c| ==> c[i] in st)
    && st[c[0]].Failed?
    && (forall i :: 1 <= i < |c| ==> Open(st[c[i]]))
  }

  ghost predicate ReachedByFailure(g: Graph, st: Statuses, n: Node) {
    exists c :: FailureChain(g, st, c) && c[|c| - 1] == n
  }

  ghost predicate Settled(g: Graph, st: Statuses, n: Node)
    requires n in st && n in g
  {
    Decide(g, st, n) == st[n]
  }

  ghost predicate Fixpoint(g: Graph, st: Statuses)
    requires st.Keys == g.Keys
  {
    forall n :: n in g ==> Settled(g, st, n)
  }

  /** Same job, and the two maps differ at most inside the open statuses. */
  ghost predicate SameClosedPart(st: Statuses, st': Statuses) {
    && st.Keys == st'.Keys
    && (forall n :: n in st ==> (Open(st[n]) <==> Open(st'[n])))
    && (forall n :: n in st && !Open(st[n]) ==> st'[n] == st[n])
  }

  /** Every dependency chain that ends in `n` has at most `k` nodes. */
  ghost predicate DepthAtMost(g: Graph, n: Node, k: nat)
    requires n in g
    decreases k
  {
    k > 0 && forall d :: d in g[n] && d in g ==> DepthAtMost(g, d, k - 1)
  }

  // ---------------------------------------------------------------- chains and depth

  lemma {:induction false} DeepNodeHasChain(g: Graph, n: Node, k: nat) returns (c: seq<Node>)
    requires n in g && !DepthAtMost(g, n, k)
    ensures DependencyChain(g, c) && |c| == k + 1 && c[k] == n
    decreases k
  {
    if k == 0 {
      c := [n];
    } else {
      var d :| d in g[n] && d in g && !DepthAtMost(g, d, k - 1);
      var c' := DeepNodeHasChain(g, d, k - 1);
      c := c' + [n];
    }
  }

  lemma BoundedChainsBoundDepth(g: Graph, bound: nat)
    requires ChainsBounded(g, bound)
    ensures forall n :: n in g ==> DepthAtMost(g, n, bound)
  {
    forall n | n in g ensures DepthAtMost(g, n, bound) {
      if !DepthAtMost(g, n, bound) {
        var c := DeepNodeHasChain(g, n, bound);
        assert false;
      }
    }
  }

  /** A topological order bounds every chain, so it certifies acyclicity. */
  lemma {:induction false} TopologicalPrefixDepth(g: Graph, order: seq<Node>, i: nat)
    requires TopologicalOrder(g, order) && i < |order|
    ensures order[i] in order && DepthAtMost(g, order[i], i + 1)
  {
    forall d | d in g[order[i]] && d in g ensures DepthAtMost(g, d, i) {
      assert d in order[..i];
      var j :| 0 <= j < i && order[j] == d;
      TopologicalPrefixDepth(g, order, j);
      DepthMonotone(g, d, j + 1, i);
    }
  }

  lemma {:induction false} DepthMonotone(g: Graph, n: Node, k: nat, m: nat)
    requires n in g && DepthAtMost(g, n, k) && k <= m
    ensures DepthAtMost(g, n, m)
    decreases k
  {
    forall d | d in g[n] && d in g ensures DepthAtMost(g, d, m - 1) {
      DepthMonotone(g, d, k - 1, m - 1);
    }
  }

  lemma {:induction false} NoSelfDependency(g: Graph, n: Node, k: nat)
    requires n in g && DepthAtMost(g, n, k)
    ensures n !in g[n]
    decreases k
  {
    if n in g[n] { NoSelfDependency(g, n, k - 1); }
  }

  // ---------------------------------------------------------------- one pass

  /** Statuses outside pending, ready and blocked survive a pass unchanged. */
  lemma {:induction false} PassKeepsClosedPart(g: Graph, st: Statuses, order: seq<Node>)
    requires st.Keys == g.Keys
    requires forall n :: n in order ==> n in g
    ensures SameClosedPart(st, Pass(g, st, order))
  {
    if order != [] {
      PassKeepsClosedPart(g, st, order[..|order| - 1]);
    }
  }

  /** A pass skips no row and takes no skip back. */
  lemma PassKeepsSkipped(g: Graph, st: Statuses, order: seq<Node>)
    requires st.Keys == g.Keys && Enumerates(order, g.Keys)
    ensures forall n :: n in st ==> (Pass(g, st, order)[n].Skipped? <==> st[n].Skipped?)
  {
    PassKeepsClosedPart(g, st, order);
  }

  /** Rows deeper than `k + 1` and rows visited later do not disturb what is settled. */
  lemma {:induction false} PassDeepensPrefix(g: Graph, st: Statuses, order: seq<Node>, k: nat)
    requires st.Keys == g.Keys && NoDup(order)
    requires forall n :: n in order ==> n in g
    requires forall n :: n in g && DepthAtMost(g, n, k) ==> Settled(g, st, n)
    ensures var st' := Pass(g, st, order);
            && (forall n :: n in g && DepthAtMost(g, n, k) ==> st'[n] == st[n] && Settled(g, st', n))
            && (forall n :: n in order && DepthAtMost(g, n, k + 1) ==> Settled(g, st', n))
  {
    if order != [] {
      var last := |order| - 1;
      var m := order[last];
      assert m in order;
      PassDeepensPrefix(g, st, order[..last], k);
      var mid := Pass(g, st, order[..last]);
      var st' := Visit(g, mid, m);
      assert Pass(g, st, order) == st';
      forall n | n in g && DepthAtMost(g, n, k)
        ensures st'[n] == st[n] && Settled(g, st', n)
      {
        DependenciesUndisturbed(g, mid, m, n, k);
      }
      forall n | n in order && DepthAtMost(g, n, k + 1) ensures Settled(g, st', n) {
        DependenciesUndisturbed(g, mid, m, n, k);
        if n != m {
          assert n in order[..last];
        }
      }
    }
  }

  /** Visiting `m` changes no dependency of a node of depth `k + 1` once depth `k` is settled. */
  lemma DependenciesUndisturbed(g: Graph, st: Statuses, m: Node, n: Node, k: nat)
    requires st.Keys == g.Keys && m in g && n in g
    requires forall x :: x in g && DepthAtMost(g, x, k) ==> Settled(g, st, x)
    requires DepthAtMost(g, n, k + 1) || DepthAtMost(g, n, k)
    ensures forall d :: d in g[n] && d in g ==> Visit(g, st, m)[d] == st[d]
    ensures m == n ==> Settled(g, Visit(g, st, m), n)
    ensures m != n && Settled(g, st, n) ==> Settled(g, Visit(g, st, m), n)
  {
    if DepthAtMost(g, n, k) { DepthMonotone(g, n, k, k + 1); }
    assert forall d :: d in g[n] && d in g ==> DepthAtMost(g, d, k);
    assert forall d :: d in g[n] && d in g ==> Visit(g, st, m)[d] == st[d];
  }

  /** One whole pass settles one more level of the DAG. */
  lemma PassDeepens(g: Graph, st: Statuses, order: seq<Node>, k: nat)
    requires st.Keys == g.Keys && Enumerates(order, g.Keys)
    requires forall n :: n in g && DepthAtMost(g, n, k) ==> Settled(g, st, n)
    ensures var st' := Pass(g, st, order);
            forall n :: n in g && DepthAtMost(g, n, k + 1) ==> Settled(g, st', n)
  {
    PassDeepensPrefix(g, st, order, k);
    assert forall n :: n in g ==> n in order;
  }

  // ---------------------------------------------------------------- convergence

  /** `orders` are the row orders the database returned, one per pass; none is prescribed. */
  lemma {:induction false} PassesSettle(g: Graph, st: Statuses, orders: seq<seq<Node>>)
    requires st.Keys == g.Keys
    requires forall o :: o in orders ==> Enumerates(o, g.Keys)
    ensures SameClosedPart(st, Passes(g, st, orders))
    ensures forall n :: n in g && DepthAtMost(g, n, |orders|) ==> Settled(g, Passes(g, st, orders), n)
  {
    if orders != [] {
      var last := |orders| - 1;
      PassesSettle(g, st, orders[..last]);
      PassDeepens(g, Passes(g, st, orders[..last]), orders[last], last);
      PassKeepsClosedPart(g, Passes(g, st, orders[..last]), orders[last]);
    }
  }

  /** As many passes as the longest chain has nodes reach a fixpoint, whatever the row orders. */
  lemma PassesReachFixpoint(g: Graph, st: Statuses, orders: seq<seq<Node>>)
    requires st.Keys == g.Keys
    requires forall o :: o in orders ==> Enumerates(o, g.Keys)
    requires ChainsBounded(g, |orders|)
    ensures Fixpoint(g, Passes(g, st, orders))
  {
    PassesSettle(g, st, orders);
    BoundedChainsBoundDepth(g, |orders|);
  }

  lemma VisitKeepsSettled(g: Graph, st: Statuses, m: Node, n: Node)
    requires st.Keys == g.Keys && m in g && n in g
    requires m !in g[n]
    requires n == m || Settled(g, st, n)
    ensures Settled(g, Visit(g, st, m), n)
  {
    assert forall d :: d in g[n] && d in g ==> Visit(g, st, m)[d] == st[d];
  }

  lemma LastHasNoChildren(g: Graph, order: seq<Node>, n: Node)
    requires forall x :: x in order ==> x in g
    requires NoDup(order) && ParentsFirst(g, order) && n in order
    ensures order[|order| - 1] !in g[n]
  {
    var m := order[|order| - 1];
    var j :| 0 <= j < |order| && order[j] == n;
    assert m in order;
    assert m !in order[..j];
  }

  /** The rows visited in topological order are settled: their parents come first. */
  lemma {:induction false} TopologicalPassSettles(g: Graph, st: Statuses, order: seq<Node>)
    requires st.Keys == g.Keys && NoDup(order)
    requires forall n :: n in order ==> n in g
    requires ParentsFirst(g, order)
    ensures forall n :: n in order ==> Settled(g, Pass(g, st, order), n)
  {
    if order != [] {
      var front, m := order[..|order| - 1], order[|order| - 1];
      assert order == front + [m];
      TopologicalPassSettles(g, st, front);
      var mid := Pass(g, st, front);
      forall n | n in order ensures Settled(g, Visit(g, mid, m), n) {
        assert n == m || n in front;
        LastHasNoChildren(g, order, n);
        VisitKeepsSettled(g, mid, m, n);
      }
    }
  }

  /** In topological order one pass reaches a fixpoint. */
  lemma TopologicalPassReachesFixpoint(g: Graph, st: Statuses, order: seq<Node>)
    requires st.Keys == g.Keys && TopologicalOrder(g, order)
    ensures Fixpoint(g, Pass(g, st, order))
  {
    TopologicalPassSettles(g, st, order);
  }

  /** At a fixpoint a further pass, in any order, writes nothing. */
  lemma {:induction false} PassAtFixpoint(g: Graph, st: Statuses, order: seq<Node>)
    requires st.Keys == g.Keys && Fixpoint(g, st)
    requires forall n :: n in order ==> n in g
    ensures Pass(g, st, order) == st
  {
    if order != [] {
      assert order[|order| - 1] in order;
      PassAtFixpoint(g, st, order[..|order| - 1]);
    }
  }

  // ---------------------------------------------------------------- the blocked set

  lemma {:induction false} FailureChainBlocks(g: Graph, st: Statuses, c: seq<Node>, i: nat)
    requires st.Keys == g.Keys && Fixpoint(g, st) && FailureChain(g, st, c) && i < |c|
    ensures Broken(st[c[i]]) && (i > 0 ==> st[c[i]].Blocked?)
  {
    if i > 0 {
      FailureChainBlocks(g, st, c, i - 1);
      assert Settled(g, st, c[i]);
    }
  }

  lemma {:induction false} BlockedHasFailureChain(g: Graph, st: Statuses, n: Node, k: nat) returns (c: seq<Node>)
    requires st.Keys == g.Keys && Fixpoint(g, st)
    requires n in g && st[n].Blocked? && DepthAtMost(g, n, k)
    ensures FailureChain(g, st, c) && c[|c| - 1] == n
    decreases k
  {
    assert Settled(g, st, n);
    var d :| d in g[n] && d in st && Broken(st[d]);
    if st[d].Failed? {
      c := [d, n];
    } else {
      c := BlockedHasFailureChain(g, st, d, k - 1);
      c := c + [n];
    }
  }

  /** At a fixpoint of an acyclic job the blocked nodes are exactly those a failure reaches. */
  lemma BlockedIffReached(g: Graph, st: Statuses, n: Node, bound: nat)
    requires st.Keys == g.Keys && Fixpoint(g, st) && ChainsBounded(g, bound) && n in g
    ensures st[n].Blocked? <==> ReachedByFailure(g, st, n)
  {
    BoundedChainsBoundDepth(g, bound);
    if st[n].Blocked? {
      var c := BlockedHasFailureChain(g, st, n, bound);
    }
    if ReachedByFailure(g, st, n) {
      var c :| FailureChain(g, st, c) && c[|c| - 1] == n;
      FailureChainBlocks(g, st, c, |c| - 1);
    }
  }

  /** From any statuses, one pass in topological order blocks exactly what the failures of the
      start state reach, and every further pass in any order leaves its result alone. */
  lemma TopologicalPassBlocks(g: Graph, st: Statuses, order: seq<Node>, again: seq<Node>)
    requires st.Keys == g.Keys && TopologicalOrder(g, order) && Enumerates(again, g.Keys)
    ensures forall n :: n in g ==> (Pass(g, st, order)[n].Blocked? <==> ReachedByFailure(g, st, n))
    ensures Pass(g, Pass(g, st, order), again) == Pass(g, st, order)
  {
    var st' := Pass(g, st, order);
    TopologicalPassReachesFixpoint(g, st, order);
    PassAtFixpoint(g, st', again);
    PassKeepsClosedPart(g, st, order);
    TopologicalOrderBoundsChains(g, order);
    forall n | n in g ensures st'[n].Blocked? <==> ReachedByFailure(g, st, n) {
      BlockedIffReached(g, st', n, |order|);
    }
  }

  /** In arbitrary row orders, as many passes as the longest chain has nodes block the same set. */
  lemma ArbitraryPassesBlock(g: Graph, st: Statuses, orders: seq<seq<Node>>)
    requires st.Keys == g.Keys
    requires forall o :: o in orders ==> Enumerates(o, g.Keys)
    requires ChainsBounded(g, |orders|)
    ensures forall n :: n in g ==> (Passes(g, st, orders)[n].Blocked? <==> ReachedByFailure(g, st, n))
  {
    var st' := Passes(g, st, orders);
    PassesReachFixpoint(g, st, orders);
    PassesSettle(g, st, orders);
    forall n | n in g ensures st'[n].Blocked? <==> ReachedByFailure(g, st, n) {
      BlockedIffReached(g, st', n, |orders|);
    }
  }

  lemma TopologicalOrderBoundsChains(g: Graph, order: seq<Node>)
    requires TopologicalOrder(g, order)
    ensures ChainsBounded(g, |order|)
  {
    forall c | DependencyChain(g, c) ensures |c| <= |order| {
      if c != [] {
        var n := c[|c| - 1];
        var i :| 0 <= i < |order| && order[i] == n;
        TopologicalPrefixDepth(g, order, i);
        ChainWithinDepth(g, c, i + 1);
      }
    }
  }

  lemma {:induction false} ChainWithinDepth(g: Graph, c: seq<Node>, k: nat)
    requires DependencyChain(g, c) && c != [] && DepthAtMost(g, c[|c| - 1], k)
    ensures |c| <= k
    decreases k
  {
    if |c| > 1 {
      var front := c[..|c| - 1];
      assert front[|front| - 1] in g[c[|c| - 1]];
      ChainWithinDepth(g, front, k - 1);
    }
  }

  // ---------------------------------------------------------------- aggregated job status

  datatype JobStatus = JobPending | JobAssigned | JobRunning | JobFailed | JobCompleted

  /** get_aggregated_job_status: an explicit termination wins, then the node statuses decide. */
  function Aggregate(job: JobStatus, st: Statuses): JobStatus {
    if job.JobFailed? || job.JobCompleted? then job
    else if st == map[] then job
    else if forall n :: n in st ==> Succeeded(st[n]) then JobCompleted
    else if exists n :: n in st && (st[n].Running? || st[n].Ready? || st[n].Preempting?) then JobRunning
    else if exists n :: n in st && Broken(st[n]) then JobFailed
    else if exists n :: n in st && st[n].Done? then JobRunning
    else JobPending
  }

  /** Every dependency has a row, as in the plans the planner emits. */
  ghost predicate ClosedGraph(g: Graph) {
    forall n, d :: n in g && d in g[n] ==> d in g
  }

  /** A pending node at a fixpoint waits, through pending nodes, for a node that can still run. */
  lemma {:induction false} PendingWaitsForActive(g: Graph, st: Statuses, n: Node, k: nat) returns (a: Node)
    requires st.Keys == g.Keys && Fixpoint(g, st) && ClosedGraph(g)
    requires n in g && st[n].Pending? && DepthAtMost(g, n, k)
    ensures a in st && (st[a].Ready? || st[a].Running? || st[a].Preempting?)
    decreases k
  {
    assert Settled(g, st, n);
    var d :| d in g[n] && !(d in st && Succeeded(st[d]));
    if st[d].Pending? {
      a := PendingWaitsForActive(g, st, d, k - 1);
    } else {
      a := d;
    }
  }

  /** No stuck job: at a fixpoint the aggregate says completed, running or failed, each exactly
      when the node statuses warrant it, and a failed job has a failed node. */
  lemma NoStuckJob(g: Graph, st: Statuses, job: JobStatus, bound: nat)
    requires st.Keys == g.Keys && Fixpoint(g, st) && ClosedGraph(g) && ChainsBounded(g, bound)
    requires st != map[] && !job.JobFailed? && !job.JobCompleted?
    ensures Aggregate(job, st).JobCompleted? <==> forall n :: n in st ==> Succeeded(st[n])
    ensures Aggregate(job, st).JobRunning? <==>
            exists n :: n in st && (st[n].Ready? || st[n].Running? || st[n].Preempting?)
    ensures Aggregate(job, st).JobCompleted? || Aggregate(job, st).JobRunning? || Aggregate(job, st).JobFailed?
    ensures Aggregate(job, st).JobFailed? ==> exists n :: n in st && st[n].Failed?
  {
    BoundedChainsBoundDepth(g, bound);
    if n :| n in st && st[n].Pending? {
      var a := PendingWaitsForActive(g, st, n, bound);
    }
    if n :| n in st && st[n].Blocked? {
      var c := BlockedHasFailureChain(g, st, n, bound);
      assert st[c[0]].Failed?;
    }
  }
}
