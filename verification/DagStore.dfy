/** The job_nodes rows of one job and the operations that update them in place
    (src/scheduler/persistence.py). Row orders, elapsed times and peer availability come from the
    database, the clock and the artifact registry, so they are parameters. */
module DagStore {
  import opened Prelude
  import opened DagPropagation
  import opened DagRuns

  datatype Action = Preempted | Retried | GaveUp

  /** A running row without any sign of life in time. */
  predicate Overdue(j: Job, n: Node, elapsed: map<Node, int>, timeout: int) {
    n in j.status && j.status[n].Running? && (n !in elapsed || elapsed[n] > timeout)
  }

  predicate AllSkipped(st: Statuses) {
    st != map[] && forall n :: n in st ==> st[n].Skipped?
  }

  /** The rows are those of the nodes, and the skipped ones those of the up-to-date nodes. */
  ghost predicate SkipsUpToDate(nodes: seq<PlanNode>, st: Statuses) {
    && (forall i :: 0 <= i < |nodes| ==> nodes[i].name in st && (st[nodes[i].name].Skipped? <==> !nodes[i].stale))
    && (forall n :: n in st ==> HasNode(nodes, n))
  }

  ghost predicate HasNode(nodes: seq<PlanNode>, n: Node) {
    exists i :: 0 <= i < |nodes| && nodes[i].name == n
  }

  lemma InsertionSkipsUpToDate(nodes: seq<PlanNode>)
    requires DistinctNames(nodes)
    ensures SkipsUpToDate(nodes, InsertRows(nodes).1.status)
  {
    var st := InsertRows(nodes).1.status;
    forall i | 0 <= i < |nodes| ensures nodes[i].name in st && (st[nodes[i].name].Skipped? <==> !nodes[i].stale) {
      RowOfNode(nodes, i);
    }
    forall n | n in st ensures HasNode(nodes, n) { NodeOfRow(nodes, n); }
  }

  /** A pass changes nothing in what is skipped. */
  lemma PassKeepsSkips(nodes: seq<PlanNode>, g: Graph, st: Statuses, order: seq<Node>)
    requires st.Keys == g.Keys && Enumerates(order, g.Keys)
    ensures SkipsUpToDate(nodes, Pass(g, st, order)) <==> SkipsUpToDate(nodes, st)
  {
    PassKeepsSkipped(g, st, order);
  }

  predicate NothingToRun(nodes: seq<PlanNode>) {
    nodes != [] && forall n :: n in nodes ==> !n.stale
  }

  lemma AllUpToDate(nodes: seq<PlanNode>, st: Statuses)
    requires SkipsUpToDate(nodes, st)
    ensures AllSkipped(st) <==> NothingToRun(nodes)
  {
    if AllSkipped(st) {
      var m :| m in st;
      assert HasNode(nodes, m);
      forall n | n in nodes ensures !n.stale {
        var i :| 0 <= i < |nodes| && nodes[i] == n;
        assert st[nodes[i].name].Skipped?;
      }
    } else if nodes != [] {
      assert nodes[0].name in st;
    }
  }

  /** Which rows the first pass leaves skipped, and when all are. */
  lemma FirstPassSkipsUpToDate(nodes: seq<PlanNode>, order: seq<Node>)
    requires DistinctNames(nodes) && Enumerates(order, InsertRows(nodes).0.deps.Keys)
    ensures var st := Pass(InsertRows(nodes).0.deps, InsertRows(nodes).1.status, order);
            && SkipsUpToDate(nodes, st)
            && (AllSkipped(st) <==> NothingToRun(nodes))
  {
    var (p, j) := InsertRows(nodes);
    InsertionSkipsUpToDate(nodes);
    PassKeepsSkips(nodes, p.deps, j.status, order);
    AllUpToDate(nodes, Pass(p.deps, j.status, order));
  }

  /** The same for the state in which a job starts. */
  lemma StartsRightly(nodes: seq<PlanNode>, order: seq<Node>, submitted: JobStatus, st: Statuses, job: JobStatus)
    requires Enumerates(order, InsertRows(nodes).0.deps.Keys)
    requires st == Pass(InsertRows(nodes).0.deps, InsertRows(nodes).1.status, order)
    requires job == if AllSkipped(st) then JobCompleted else submitted
    ensures DistinctNames(nodes) ==> SkipsUpToDate(nodes, st)
    ensures DistinctNames(nodes) ==> job == if NothingToRun(nodes) then JobCompleted else submitted
  {
    if DistinctNames(nodes) { FirstPassSkipsUpToDate(nodes, order); }
  }

  class JobNodes {
    const plan: Plan
    var status: Statuses
    var retries: map<Node, nat>
    var recoveries: map<Node, nat>
    var jobStatus: JobStatus

    ghost predicate Valid()
      reads this
    {
      ValidJob(plan, Rows())
    }

    function Rows(): Job
      reads this
    {
      Job(status, retries, recoveries)
    }

    /** The insertion loop of init_job_nodes_from_plan. */
    static method InsertAll(nodes: seq<PlanNode>) returns (p: Plan, j: Job)
      ensures p == InsertRows(nodes).0 && j == InsertRows(nodes).1
      ensures ValidJob(p, j)
    {
      p, j := Plan(map[], map[]), Job(map[], map[], map[]);
      for i := 0 to |nodes|
        invariant p == InsertRows(nodes[..i]).0 && j == InsertRows(nodes[..i]).1
      {
        var node := nodes[i];
        var initial: Status;
        if !node.stale {
          initial := Skipped;
        } else if node.deps == [] {
          initial := Ready;
        } else {
          initial := Pending;
        }
        assert nodes[..i + 1][..i] == nodes[..i];
        p := Plan(p.deps[node.name := node.deps], p.outs[node.name := node.outs]);
        j := Job(j.status[node.name := initial], j.retries[node.name := 0], j.recoveries[node.name := 0]);
      }
      assert nodes[..|nodes|] == nodes;
    }

    /** init_job_nodes_from_plan: one row per plan node, one propagation pass, and a job whose
        nodes are all skipped is completed at once. */
    constructor InitFromPlan(nodes: seq<PlanNode>, order: seq<Node>, submitted: JobStatus)
      requires Enumerates(order, InsertRows(nodes).0.deps.Keys)
      ensures Valid() && plan == InsertRows(nodes).0
      ensures status == Pass(plan.deps, InsertRows(nodes).1.status, order)
      ensures retries == InsertRows(nodes).1.retries && recoveries == InsertRows(nodes).1.recoveries
      ensures DistinctNames(nodes) ==> SkipsUpToDate(nodes, status)
      ensures DistinctNames(nodes) ==> jobStatus == if NothingToRun(nodes) then JobCompleted else submitted
    {
      var p, j := InsertAll(nodes);
      plan, status, retries, recoveries, jobStatus := p, j.status, j.retries, j.recoveries, submitted;
      new;
      UpdateDagReadyStates(order);
      CompleteIfAllSkipped();
      StartsRightly(nodes, order, submitted, status, jobStatus);
    }

    /** The last step of init_job_nodes_from_plan. */
    method CompleteIfAllSkipped()
      modifies this`jobStatus
      ensures jobStatus == if AllSkipped(status) then JobCompleted else old(jobStatus)
    {
      if AllSkipped(status) {
        jobStatus := JobCompleted;
      }
    }

    /** The body of the propagation loop for one row. */
    method VisitRow(name: Node)
      requires Valid() && name in plan.deps
      modifies this`status
      ensures Valid()
      ensures status == Visit(plan.deps, old(status), name)
    {
      var current := status[name];
      if !current.Pending? && !current.Ready? && !current.Blocked? {
        return;
      }
      var deps := plan.deps[name];
      if deps == [] {
        if current.Pending? || current.Blocked? {
          status := status[name := Ready];
        }
        return;
      }
      if exists d :: d in deps && d in status && (status[d].Failed? || status[d].Blocked?) {
        if !current.Blocked? {
          status := status[name := Blocked];
        }
        return;
      }
      if forall d :: d in deps ==> d in status && (status[d].Done? || status[d].Skipped?) {
        if current.Pending? || current.Blocked? {
          status := status[name := Ready];
        }
        return;
      }
      if current.Blocked? {
        status := status[name := Pending];
      }
    }

    /** update_dag_ready_states: the rows are visited in the order the database returned them,
        and each write is seen by the rows after it. */
    method UpdateDagReadyStates(order: seq<Node>)
      requires Valid() && Enumerates(order, plan.deps.Keys)
      modifies this`status
      ensures Valid()
      ensures status == Pass(plan.deps, old(status), order)
    {
      ghost var before := status;
      for i := 0 to |order|
        invariant Valid() && PassedUpTo(plan.deps, before, order, i, status)
      {
        assert order[i] in order;
        VisitRow(order[i]);
        OneMoreRow(plan.deps, before, order, i);
      }
      assert order[..|order|] == order;
    }

    /** The loop of the pass has visited the first `i` rows. */
    static ghost predicate PassedUpTo(g: Graph, before: Statuses, order: seq<Node>, i: nat, now: Statuses)
      requires before.Keys == g.Keys && Enumerates(order, g.Keys) && i <= |order|
    {
      (forall n :: n in order[..i] ==> n in g) && now == Pass(g, before, order[..i])
    }

    static lemma OneMoreRow(g: Graph, before: Statuses, order: seq<Node>, i: nat)
      requires before.Keys == g.Keys && Enumerates(order, g.Keys) && i < |order|
      ensures forall n :: n in order[..i + 1] ==> n in g
      ensures forall n :: n in order[..i] ==> n in g
      ensures order[i] in g
      ensures Pass(g, before, order[..i + 1]) == Visit(g, Pass(g, before, order[..i]), order[i])
    {
      assert order[i] in order && order[..i + 1][..i] == order[..i];
    }

    /** mark_node_status: record a status, then propagate. */
    method MarkNodeStatus(node: Node, to: Status, order: seq<Node>)
      requires Valid() && Enumerates(order, plan.deps.Keys)
      modifies this`status
      ensures Valid()
      ensures status == Pass(plan.deps, SetStatus(old(Rows()), node, to).status, order)
    {
      if node in status {
        status := status[node := to];
      }
      UpdateDagReadyStates(order);
    }

    /** The last row, in scan order, that declares one of the missing paths. */
    method FindProducer(scan: seq<Node>, paths: seq<string>) returns (producer: Option<Node>)
      requires Valid() && forall n :: n in scan ==> n in plan.outs
      ensures producer == LastProducer(plan.outs, scan, paths)
    {
      producer := None;
      for i := 0 to |scan|
        invariant producer == LastProducer(plan.outs, scan[..i], paths)
      {
        assert scan[i] in scan && scan[..i + 1][..i] == scan[..i];
        if exists path :: path in paths && path in plan.outs[scan[i]] {
          producer := Some(scan[i]);
        }
      }
      assert scan[..|scan|] == scan;
    }

    /** The UPDATE that makes a row ready again and counts the recovery. */
    method SendBack(node: Node)
      requires Valid()
      modifies this`status, this`recoveries
      ensures Valid()
      ensures Rows() == if node in plan.deps then DagRuns.SentBack(old(Rows()), node) else old(Rows())
    {
      if node in status {
        status := status[node := Ready];
        recoveries := recoveries[node := recoveries[node] + 1];
      }
    }

    method DiagnoseMissing(consumer: Node, paths: seq<string>, peers: bool, scan: seq<Node>) returns (outcome: Recovery)
      requires Valid() && Enumerates(scan, plan.deps.Keys)
      ensures outcome == Diagnose(plan, Rows(), consumer, paths, peers, scan)
    {
      var found := FindProducer(scan, paths);
      if found.None? { return UnknownProducer; }
      var producer := found.value;
      var tried := if consumer in recoveries then recoveries[consumer] else 0;
      if peers && tried < 2 { return RetryFetch; }
      if recoveries[producer] >= 1 { return RetryExhausted(producer); }
      outcome := Relaunch(producer);
    }

    /** The updates of each outcome, and the propagation that follows them. */
    method ApplyRecovery(consumer: Node, outcome: Recovery, order: seq<Node>)
      requires Valid() && Enumerates(order, plan.deps.Keys)
      requires outcome.Relaunch? ==> outcome.producer in plan.deps
      modifies this`status, this`recoveries
      ensures Valid()
      ensures recoveries == Recover(old(Rows()), consumer, outcome).recoveries
      ensures status == Pass(plan.deps, Recover(old(Rows()), consumer, outcome).status, order)
    {
      match outcome
      case UnknownProducer => MarkNodeStatus(consumer, Failed, order);
      case RetryExhausted(_) => MarkNodeStatus(consumer, Failed, order);
      case RetryFetch =>
        SendBack(consumer);
        UpdateDagReadyStates(order);
      case Relaunch(producer) =>
        SendBack(producer);
        MarkNodeStatus(consumer, Pending, order);
    }

    /** handle_missing_deps: retry the fetch while peers hold the artifact, else send the
        producer back once, else fail the consumer. */
    method HandleMissingDeps(consumer: Node, paths: seq<string>, peers: bool, scan: seq<Node>, order: seq<Node>)
      returns (outcome: Recovery)
      requires Valid() && Enumerates(scan, plan.deps.Keys) && Enumerates(order, plan.deps.Keys)
      modifies this`status, this`recoveries
      ensures Valid()
      ensures outcome == Diagnose(plan, old(Rows()), consumer, paths, peers, scan)
      ensures recoveries == Recover(old(Rows()), consumer, outcome).recoveries
      ensures status == Pass(plan.deps, Recover(old(Rows()), consumer, outcome).status, order)
    {
      outcome := DiagnoseMissing(consumer, paths, peers, scan);
      ApplyRecovery(consumer, outcome, order);
    }

    static lemma ResetOneMore(j: Job, done: set<Node>, n: Node)
      ensures n in j.status ==>
              Reset(j, done + {n}) == SetStatus(Reset(j, done), n, Ready)
    {
    }

    /** check_runner_heartbeat_timeouts: running rows whose last sign of life is unknown or too
        old become ready again; no propagation follows. */
    method CheckHeartbeatTimeouts(scan: seq<Node>, elapsed: map<Node, int>, timeout: int)
      returns (recovered: set<Node>)
      requires Valid() && Enumerates(scan, plan.deps.Keys)
      modifies this`status
      ensures Valid()
      ensures recovered == set n | n in old(status) && Overdue(old(Rows()), n, elapsed, timeout)
      ensures Rows() == Reset(old(Rows()), recovered)
      ensures forall n :: n in status ==>
                status[n] == if old(status)[n].Running? && !(n in elapsed && elapsed[n] <= timeout) then Ready
                             else old(status)[n]
    {
      recovered := {};
      ghost var before := Rows();
      for i := 0 to |scan|
        invariant Rows() == Reset(before, recovered)
        invariant RecoveredUpTo(before, scan, i, elapsed, timeout, recovered)
      {
        var n := scan[i];
        assert n in scan;
        OneMoreScanned(before, scan, i, elapsed, timeout, recovered);
        if status[n].Running? && (n !in elapsed || elapsed[n] > timeout) {
          ResetOneMore(before, recovered, n);
          status := status[n := Ready];
          recovered := recovered + {n};
        }
      }
    }

    /** The overdue rows among the first `i`. */
    static ghost predicate RecoveredUpTo(before: Job, scan: seq<Node>, i: nat, elapsed: map<Node, int>, timeout: int,
                                         recovered: set<Node>)
      requires i <= |scan|
    {
      forall n :: n in recovered <==> n in scan[..i] && Overdue(before, n, elapsed, timeout)
    }

    static lemma OneMoreScanned(before: Job, scan: seq<Node>, i: nat, elapsed: map<Node, int>, timeout: int,
                                recovered: set<Node>)
      requires i < |scan| && NoDup(scan) && RecoveredUpTo(before, scan, i, elapsed, timeout, recovered)
      ensures scan[i] !in recovered
      ensures RecoveredUpTo(before, scan, i + 1, elapsed, timeout,
                            if Overdue(before, scan[i], elapsed, timeout) then recovered + {scan[i]} else recovered)
    {
      assert scan[..i + 1] == scan[..i] + [scan[i]];
    }

    /** handle_node_failure_or_retry: a preempted node is requeued without using up a retry. */
    method HandleNodeFailureOrRetry(node: Node, nonRetryable: bool, maxRetries: nat, preempted: bool)
      returns (action: Action)
      requires Valid()
      modifies this`status, this`retries
      ensures Valid()
      ensures Rows() == if preempted then SetStatus(old(Rows()), node, Ready)
                        else FailureOrRetry(old(Rows()), node, nonRetryable, maxRetries)
      ensures action == if preempted then Preempted
                        else if !nonRetryable
                                && (if node in old(retries) then old(retries)[node] else 0) < maxRetries
                        then Retried else GaveUp
    {
      if preempted {
        if node in status {
          status := status[node := Ready];
        }
        return Preempted;
      }
      var current := if node in retries then retries[node] else 0;
      if !nonRetryable && current < maxRetries {
        if node in status {
          status := status[node := Ready];
          retries := retries[node := current + 1];
        }
        return Retried;
      }
      if node in status {
        status := status[node := Failed];
      }
      return GaveUp;
    }

    /** get_aggregated_job_status */
    method GetAggregatedJobStatus() returns (r: JobStatus)
      ensures r == Aggregate(jobStatus, status)
    {
      if jobStatus.JobFailed? || jobStatus.JobCompleted? {
        return jobStatus;
      }
      if status == map[] {
        return jobStatus;
      }
      if forall n :: n in status ==> Succeeded(status[n]) {
        return JobCompleted;
      }
      if exists n :: n in status && (status[n].Running? || status[n].Ready? || status[n].Preempting?) {
        return JobRunning;
      }
      if exists n :: n in status && Broken(status[n]) {
        return JobFailed;
      }
      if exists n :: n in status && status[n].Done? {
        return JobRunning;
      }
      return JobPending;
    }
  }
}
