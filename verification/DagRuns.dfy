/** Runs of one DAG job: every step the scheduler and its runners can take on the node rows
    (src/scheduler/persistence.py), what all runs keep, and how long they can get. */
module DagRuns {
  import opened Prelude
  import opened DagPropagation

  /** The columns no step rewrites: dependencies and declared output paths. */
  datatype Plan = Plan(deps: Graph, outs: map<Node, seq<string>>)

  /** The columns the steps rewrite: status, retry_count and missing_deps_retried. */
  datatype Job = Job(status: Statuses, retries: map<Node, nat>, recoveries: map<Node, nat>)

  predicate ValidJob(p: Plan, j: Job) {
    && p.outs.Keys == p.deps.Keys
    && j.status.Keys == p.deps.Keys
    && j.retries.Keys == p.deps.Keys
    && j.recoveries.Keys == p.deps.Keys
  }

  /** An UPDATE on a missing row changes nothing. */
  function SetStatus(j: Job, n: Node, s: Status): Job {
    if n in j.status then j.(status := j.status[n := s]) else j
  }

  // ---------------------------------------------------------------- failure, retry, preemption

  function FailureOrRetry(j: Job, n: Node, nonRetryable: bool, limit: nat): Job
    requires n in j.status ==> n in j.retries
  {
    if n !in j.status then j
    else if !nonRetryable && j.retries[n] < limit then
      SetStatus(j, n, Ready).(retries := j.retries[n := j.retries[n] + 1])
    else SetStatus(j, n, Failed)
  }

  function Reset(j: Job, expired: set<Node>): Job {
    j.(status := map n | n in j.status :: if n in expired then Ready else j.status[n])
  }

  // ---------------------------------------------------------------- missing dependencies

  datatype Recovery = UnknownProducer | RetryFetch | RetryExhausted(producer: Node) | Relaunch(producer: Node)

  predicate Produces(outs: seq<string>, paths: seq<string>) {
    exists path :: path in paths && path in outs
  }

  /** The scan keeps the last row that declares a missing path. */
  function LastProducer(outs: map<Node, seq<string>>, order: seq<Node>, paths: seq<string>): (r: Option<Node>)
    requires forall n :: n in order ==> n in outs
    ensures r.Some? ==> r.value in order && Produces(outs[r.value], paths)
    ensures r.None? ==> forall n :: n in order ==> !Produces(outs[n], paths)
  {
    if order == [] then None
    else
      var last := |order| - 1;
      assert order == order[..last] + [order[last]];
      if Produces(outs[order[last]], paths) then Some(order[last])
      else LastProducer(outs, order[..last], paths)
  }

  /** No row after the one found declares a missing path. */
  lemma {:induction false} NoLaterProducer(outs: map<Node, seq<string>>, order: seq<Node>, paths: seq<string>)
    requires (forall n :: n in order ==> n in outs) && LastProducer(outs, order, paths).Some?
    ensures exists i :: 0 <= i < |order| && order[i] == LastProducer(outs, order, paths).value
                     && forall n :: n in order[i + 1..] ==> !Produces(outs[n], paths)
  {
    var last := |order| - 1;
    if Produces(outs[order[last]], paths) {
      assert order[last + 1..] == [];
    } else {
      NoLaterProducer(outs, order[..last], paths);
      var i :| 0 <= i < last && order[..last][i] == LastProducer(outs, order, paths).value
            && forall n :: n in order[..last][i + 1..] ==> !Produces(outs[n], paths);
      assert order[i + 1..] == order[..last][i + 1..] + [order[last]];
    }
  }

  function Diagnose(p: Plan, j: Job, consumer: Node, paths: seq<string>, peers: bool, order: seq<Node>): (r: Recovery)
    requires ValidJob(p, j) && forall n :: n in order ==> n in p.deps
    ensures r.Relaunch? ==> r.producer in p.deps && j.recoveries[r.producer] == 0
    ensures r.RetryFetch? && consumer in p.deps ==> j.recoveries[consumer] < 2
  {
    match LastProducer(p.outs, order, paths)
    case None => UnknownProducer
    case Some(producer) =>
      var tried := if consumer in j.recoveries then j.recoveries[consumer] else 0;
      if peers && tried < 2 then RetryFetch
      else if j.recoveries[producer] >= 1 then RetryExhausted(producer)
      else Relaunch(producer)
  }

  /** A counted recovery: the row becomes ready again. */
  function SentBack(j: Job, n: Node): Job
    requires n in j.recoveries
  {
    SetStatus(j, n, Ready).(recoveries := j.recoveries[n := j.recoveries[n] + 1])
  }

  /** The row updates of one diagnosis, before the propagation pass. */
  function Recover(j: Job, consumer: Node, r: Recovery): (j': Job)
    requires j.recoveries.Keys == j.status.Keys
    requires r.Relaunch? ==> r.producer in j.status
    ensures j'.status.Keys == j.status.Keys
  {
    match r
    case UnknownProducer => SetStatus(j, consumer, Failed)
    case RetryExhausted(_) => SetStatus(j, consumer, Failed)
    case RetryFetch =>
      if consumer in j.status then SentBack(j, consumer) else j
    case Relaunch(producer) => SetStatus(SentBack(j, producer), consumer, Pending)
  }

  // ---------------------------------------------------------------- events

  datatype Event =
    | Claim(node: Node)
    | MarkPreempting(node: Node)
    | ReportDone(node: Node)
    | ReportFailure(node: Node, nonRetryable: bool)
    | AckPreemption(node: Node)
    | HeartbeatTimeout(expired: set<Node>)
    | MissingDeps(consumer: Node, paths: seq<string>, peers: bool, order: seq<Node>)
    | Propagate(order: seq<Node>)

  /** The job, the producers sent back and not done again since, and the producers that were
      sent back without having been ready, running or done. */
  datatype RunState = RunState(job: Job, relaunched: set<Node>, forced: set<Node>)

  /** Reports come from the runner that holds the node. */
  ghost predicate Enabled(p: Plan, s: RunState, e: Event)
    requires ValidJob(p, s.job)
  {
    var st := s.job.status;
    match e
    case Claim(n) => n in st && st[n].Ready?
    case MarkPreempting(n) => n in st && st[n].Running?
    case ReportDone(n) => n in st && (st[n].Running? || st[n].Preempting?)
    case ReportFailure(n, _) => n in st && st[n].Running?
    case AckPreemption(n) => n in st && (st[n].Running? || st[n].Preempting?)
    case HeartbeatTimeout(expired) => forall n :: n in expired ==> n in st && st[n].Running?
    case MissingDeps(c, _, _, order) => c in st && st[c].Running? && Enumerates(order, p.deps.Keys)
    case Propagate(order) => Enumerates(order, p.deps.Keys)
  }

  predicate Live(s: Status) {
    s.Ready? || s.Running? || s.Preempting? || s.Done?
  }

  ghost function Step(p: Plan, limit: nat, s: RunState, e: Event): (s': RunState)
    requires ValidJob(p, s.job) && Enabled(p, s, e)
    ensures ValidJob(p, s'.job)
  {
    var j := s.job;
    match e
    case Claim(n) => s.(job := SetStatus(j, n, Running))
    case MarkPreempting(n) => s.(job := SetStatus(j, n, Preempting))
    case ReportDone(n) => s.(job := SetStatus(j, n, Done), relaunched := s.relaunched - {n})
    case ReportFailure(n, nonRetryable) => s.(job := FailureOrRetry(j, n, nonRetryable, limit))
    case AckPreemption(n) => s.(job := SetStatus(j, n, Ready))
    case HeartbeatTimeout(expired) => s.(job := Reset(j, expired))
    case MissingDeps(c, paths, peers, order) =>
      var r := Diagnose(p, j, c, paths, peers, order);
      var s' := s.(job := Recover(j, c, r));
      if r.Relaunch? then
        s'.(relaunched := s.relaunched + {r.producer},
            forced := if Live(j.status[r.producer]) then s.forced else s.forced + {r.producer})
      else s'
    case Propagate(order) => s.(job := j.(status := Pass(p.deps, j.status, order)))
  }

  // ---------------------------------------------------------------- initial states

  datatype PlanNode = PlanNode(name: Node, deps: seq<Node>, stale: bool, outs: seq<string>)

  function InitialStatus(n: PlanNode): Status {
    if !n.stale then Skipped else if n.deps == [] then Ready else Pending
  }

  /** Rows after inserting the plan nodes one by one; a repeated name replaces its row. */
  function InsertRows(nodes: seq<PlanNode>): (r: (Plan, Job))
    ensures ValidJob(r.0, r.1)
  {
    if nodes == [] then (Plan(map[], map[]), Job(map[], map[], map[]))
    else
      var (p, j) := InsertRows(nodes[..|nodes| - 1]);
      var n := nodes[|nodes| - 1];
      (Plan(p.deps[n.name := n.deps], p.outs[n.name := n.outs]),
       Job(j.status[n.name := InitialStatus(n)], j.retries[n.name := 0], j.recoveries[n.name := 0]))
  }

  ghost predicate Fresh(p: Plan, j: Job)
    requires ValidJob(p, j)
  {
    forall n :: n in j.status ==>
      && j.retries[n] == 0 && j.recoveries[n] == 0
      && (j.status[n].Skipped? || j.status[n].Pending? || (j.status[n].Ready? && p.deps[n] == []))
  }

  lemma {:induction false} InitialRows(nodes: seq<PlanNode>)
    ensures Fresh(InsertRows(nodes).0, InsertRows(nodes).1)
  {
    if nodes != [] {
      var front, last := nodes[..|nodes| - 1], nodes[|nodes| - 1];
      InitialRows(front);
      var (p, j) := InsertRows(nodes);
      var (p', j') := InsertRows(front);
      forall n | n in j.status && n != last.name
        ensures n in j'.status && j.status[n] == j'.status[n] && p.deps[n] == p'.deps[n]
      {}
    }
  }

  predicate DistinctNames(nodes: seq<PlanNode>) {
    forall i, j :: 0 <= i < j < |nodes| ==> nodes[i].name != nodes[j].name
  }

  /** A plan node makes a row that is skipped exactly if the node is up to date, and of the others
      exactly those without dependencies may run at once. */
  lemma {:induction false} RowOfNode(nodes: seq<PlanNode>, i: nat)
    requires DistinctNames(nodes) && i < |nodes|
    ensures nodes[i].name in InsertRows(nodes).1.status
    ensures var status := InsertRows(nodes).1.status[nodes[i].name];
            && (status.Skipped? <==> !nodes[i].stale)
            && (status.Ready? <==> nodes[i].stale && nodes[i].deps == [])
            && (status.Pending? <==> nodes[i].stale && nodes[i].deps != [])
  {
    if i < |nodes| - 1 { RowOfNode(nodes[..|nodes| - 1], i); }
  }

  lemma {:induction false} NodeOfRow(nodes: seq<PlanNode>, n: Node)
    requires n in InsertRows(nodes).1.status
    ensures exists i :: 0 <= i < |nodes| && nodes[i].name == n
  {
    var front, last := nodes[..|nodes| - 1], nodes[|nodes| - 1];
    if n != last.name {
      NodeOfRow(front, n);
      var i :| 0 <= i < |front| && front[i].name == n;
      assert nodes[i].name == n;
    } else {
      assert nodes[|nodes| - 1].name == n;
    }
  }

  // ---------------------------------------------------------------- runs

  ghost predicate IsRun(p: Plan, limit: nat, states: seq<RunState>, events: seq<Event>) {
    && |states| == |events| + 1
    && (forall i :: 0 <= i < |states| ==> ValidJob(p, states[i].job))
    && (forall i :: 0 <= i < |events| ==>
          Enabled(p, states[i], events[i]) && states[i + 1] == Step(p, limit, states[i], events[i]))
  }

  /** A run of the job that a plan initialises. */
  ghost predicate RunOfPlan(nodes: seq<PlanNode>, limit: nat, states: seq<RunState>, events: seq<Event>) {
    var (p, j) := InsertRows(nodes);
    IsRun(p, limit, states, events) && states[0] == RunState(j, {}, {})
  }

  // ---------------------------------------------------------------- ordering invariant

  predicate GoodParent(s: RunState, d: Node) {
    d in s.job.status && (Succeeded(s.job.status[d]) || d in s.relaunched)
  }

  /** A ready, running, preempting or done node has succeeded parents, except for parents that
      were sent back and are not done again, and except for nodes sent back while not live. */
  ghost predicate NodeOrdered(p: Plan, s: RunState, n: Node)
    requires ValidJob(p, s.job) && n in p.deps
  {
    Live(s.job.status[n]) && n !in s.forced ==> forall d :: d in p.deps[n] ==> GoodParent(s, d)
  }

  ghost predicate ParentsSucceeded(p: Plan, s: RunState)
    requires ValidJob(p, s.job)
  {
    forall n :: n in p.deps ==> NodeOrdered(p, s, n)
  }

  /** No node is retried or recovered more often than the limits allow. */
  ghost predicate WithinLimits(limit: nat, j: Job) {
    && (forall n :: n in j.retries ==> j.retries[n] <= limit)
    && (forall n :: n in j.recoveries ==> j.recoveries[n] <= 2)
  }

  ghost predicate RunInvariant(p: Plan, limit: nat, s: RunState) {
    ValidJob(p, s.job) && ParentsSucceeded(p, s) && WithinLimits(limit, s.job)
  }

  lemma {:induction false} PassMakesReadyRightly(g: Graph, st: Statuses, order: seq<Node>)
    requires st.Keys == g.Keys
    requires forall n :: n in order ==> n in g
    ensures var st' := Pass(g, st, order);
            forall n :: n in g && Live(st'[n]) ==> Live(st[n]) || AllParentsSucceeded(st, g[n])
  {
    if order != [] {
      var front, m := order[..|order| - 1], order[|order| - 1];
      assert order == front + [m];
      PassMakesReadyRightly(g, st, front);
      PassKeepsClosedPart(g, st, front);
      var mid := Pass(g, st, front);
      if AllParentsSucceeded(mid, g[m]) {
        forall d | d in g[m] ensures d in st && Succeeded(st[d]) {}
      }
    }
  }

  /** A node that was live, or is live no more, may take any status as long as no child that
      relies on it loses a succeeded parent. */
  lemma OneChangeKeepsOrder(p: Plan, s: RunState, s': RunState, n: Node)
    requires ValidJob(p, s.job) && ValidJob(p, s'.job) && ParentsSucceeded(p, s)
    requires n in s.job.status && s'.job.status == s.job.status[n := s'.job.status[n]]
    requires s.forced <= s'.forced && s.relaunched - {n} <= s'.relaunched
    requires Live(s'.job.status[n]) ==> Live(s.job.status[n]) || n in s'.forced
    requires Succeeded(s'.job.status[n]) || n in s'.relaunched
             || (!Succeeded(s.job.status[n]) && n !in s.relaunched)
    ensures ParentsSucceeded(p, s')
  {
    forall c | c in p.deps ensures NodeOrdered(p, s', c) {
      assert NodeOrdered(p, s, c);
      assert forall d :: GoodParent(s, d) ==> GoodParent(s', d);
    }
  }

  /** The producer becomes ready, exempt from now on, and the consumer pending. */
  lemma RelaunchKeepsOrder(p: Plan, s: RunState, s': RunState, producer: Node, consumer: Node)
    requires ValidJob(p, s.job) && ValidJob(p, s'.job) && ParentsSucceeded(p, s)
    requires producer in s.job.status && consumer in s.job.status
    requires s'.job.status == s.job.status[producer := Ready][consumer := Pending]
    requires s.forced <= s'.forced && s.relaunched <= s'.relaunched && producer in s'.relaunched
    requires Live(s.job.status[producer]) || producer in s'.forced
    requires !Succeeded(s.job.status[consumer])
    ensures ParentsSucceeded(p, s')
  {
    var mid := s'.(job := SetStatus(s.job, producer, Ready));
    OneChangeKeepsOrder(p, s, mid, producer);
    forall c | c in p.deps ensures NodeOrdered(p, s', c) {
      assert NodeOrdered(p, mid, c);
      assert forall d :: GoodParent(mid, d) ==> GoodParent(s', d);
    }
  }

  lemma OtherRecoveriesKeepOrder(p: Plan, s: RunState, consumer: Node, r: Recovery)
    requires ValidJob(p, s.job) && ParentsSucceeded(p, s) && !r.Relaunch?
    requires consumer in s.job.status && s.job.status[consumer].Running?
    ensures ParentsSucceeded(p, s.(job := Recover(s.job, consumer, r)))
  {
    OneChangeKeepsOrder(p, s, s.(job := Recover(s.job, consumer, r)), consumer);
  }

  lemma RecoveryKeepsOrder(p: Plan, limit: nat, s: RunState, e: Event)
    requires RunInvariant(p, limit, s) && Enabled(p, s, e) && e.MissingDeps?
    ensures ParentsSucceeded(p, Step(p, limit, s, e))
  {
    var r := Diagnose(p, s.job, e.consumer, e.paths, e.peers, e.order);
    if r.Relaunch? {
      RelaunchKeepsOrder(p, s, Step(p, limit, s, e), r.producer, e.consumer);
    } else {
      OtherRecoveriesKeepOrder(p, s, e.consumer, r);
    }
  }

  lemma HeartbeatKeepsOrder(p: Plan, s: RunState, s': RunState, expired: set<Node>)
    requires ValidJob(p, s.job) && ValidJob(p, s'.job) && ParentsSucceeded(p, s)
    requires forall n :: n in expired ==> n in s.job.status && s.job.status[n].Running?
    requires s' == s.(job := Reset(s.job, expired))
    ensures ParentsSucceeded(p, s')
  {
    forall c | c in p.deps ensures NodeOrdered(p, s', c) {
      assert NodeOrdered(p, s, c);
      assert forall d :: GoodParent(s, d) ==> GoodParent(s', d);
    }
  }

  lemma PropagationKeepsOrder(p: Plan, s: RunState, s': RunState, order: seq<Node>)
    requires ValidJob(p, s.job) && ParentsSucceeded(p, s)
    requires Enumerates(order, p.deps.Keys)
    requires s' == s.(job := s.job.(status := Pass(p.deps, s.job.status, order)))
    ensures ParentsSucceeded(p, s')
  {
    PassMakesReadyRightly(p.deps, s.job.status, order);
    PassKeepsClosedPart(p.deps, s.job.status, order);
    forall c | c in p.deps ensures NodeOrdered(p, s', c) {
      assert NodeOrdered(p, s, c);
      assert forall d :: GoodParent(s, d) ==> GoodParent(s', d);
    }
  }

  lemma StepKeepsOrder(p: Plan, limit: nat, s: RunState, e: Event)
    requires RunInvariant(p, limit, s) && Enabled(p, s, e)
    ensures ParentsSucceeded(p, Step(p, limit, s, e))
  {
    var s' := Step(p, limit, s, e);
    match e
    case Claim(n) => OneChangeKeepsOrder(p, s, s', n);
    case MarkPreempting(n) => OneChangeKeepsOrder(p, s, s', n);
    case ReportDone(n) => OneChangeKeepsOrder(p, s, s', n);
    case ReportFailure(n, _) => OneChangeKeepsOrder(p, s, s', n);
    case AckPreemption(n) => OneChangeKeepsOrder(p, s, s', n);
    case MissingDeps(_, _, _, _) => RecoveryKeepsOrder(p, limit, s, e);
    case HeartbeatTimeout(expired) => HeartbeatKeepsOrder(p, s, s', expired);
    case Propagate(order) => PropagationKeepsOrder(p, s, s', order);
  }

  lemma RecoverKeepsLimits(limit: nat, j: Job, c: Node, r: Recovery)
    requires WithinLimits(limit, j) && j.recoveries.Keys == j.status.Keys
    requires r.RetryFetch? && c in j.status ==> j.recoveries[c] < 2
    requires r.Relaunch? ==> r.producer in j.status && j.recoveries[r.producer] == 0
    ensures WithinLimits(limit, Recover(j, c, r))
  {
  }

  lemma StepKeepsLimits(p: Plan, limit: nat, s: RunState, e: Event)
    requires ValidJob(p, s.job) && WithinLimits(limit, s.job) && Enabled(p, s, e)
    ensures WithinLimits(limit, Step(p, limit, s, e).job)
  {
    if e.MissingDeps? {
      RecoverKeepsLimits(limit, s.job, e.consumer, Diagnose(p, s.job, e.consumer, e.paths, e.peers, e.order));
    }
  }

  /** In every reachable state of every run the ordering invariant and the limits hold. */
  lemma {:induction false} RunsKeepInvariant(nodes: seq<PlanNode>, limit: nat, states: seq<RunState>,
                                             events: seq<Event>, i: nat)
    requires RunOfPlan(nodes, limit, states, events) && i < |states|
    ensures RunInvariant(InsertRows(nodes).0, limit, states[i])
  {
    if i == 0 {
      InitialRows(nodes);
    } else {
      RunsKeepInvariant(nodes, limit, states, events, i - 1);
      StepKeepsOrder(InsertRows(nodes).0, limit, states[i - 1], events[i - 1]);
      StepKeepsLimits(InsertRows(nodes).0, limit, states[i - 1], events[i - 1]);
    }
  }

  // ---------------------------------------------------------------- how long a run can get

  function Weight(s: Status): nat {
    if Open(s) then 2 else if s.Running? || s.Preempting? then 1 else 0
  }

  /** Work a node may still cause: 2 per unused retry and 4 per unused recovery on top. */
  function NodePotential(limit: nat, j: Job, n: Node): nat
    requires n in j.status && n in j.retries && n in j.recoveries
  {
    Weight(j.status[n])
    + (if j.retries[n] < limit then 2 * (limit - j.retries[n]) else 0)
    + (if j.recoveries[n] < 2 then 4 * (2 - j.recoveries[n]) else 0)
  }

  /** Sum over an enumeration of the nodes. */
  function Potential(p: Plan, limit: nat, j: Job, names: seq<Node>): nat
    requires ValidJob(p, j) && forall n :: n in names ==> n in p.deps
  {
    if names == [] then 0
    else
      assert names == names[..|names| - 1] + [names[|names| - 1]];
      Potential(p, limit, j, names[..|names| - 1]) + NodePotential(limit, j, names[|names| - 1])
  }

  /** Sum of a constant gain over the listed nodes that belong to a set. */
  function Gains(names: seq<Node>, nodes: set<Node>, gain: int): int {
    if names == [] then 0
    else Gains(names[..|names| - 1], nodes, gain) + (if names[|names| - 1] in nodes then gain else 0)
  }

  lemma {:induction false} GainsElsewhere(names: seq<Node>, nodes: set<Node>, gain: int, n: Node)
    requires n !in names
    ensures Gains(names, nodes - {n}, gain) == Gains(names, nodes, gain)
    ensures Gains(names, {n}, gain) == 0
  {
    if names != [] {
      assert names == names[..|names| - 1] + [names[|names| - 1]];
      GainsElsewhere(names[..|names| - 1], nodes, gain, n);
    }
  }

  lemma {:induction false} GainsOfOne(names: seq<Node>, n: Node, gain: int)
    requires NoDup(names) && n in names
    ensures Gains(names, {n}, gain) == gain
  {
    var front, last := names[..|names| - 1], names[|names| - 1];
    assert names == front + [last];
    if last == n {
      GainsElsewhere(front, {}, gain, n);
    } else {
      GainsOfOne(front, n, gain);
    }
  }

  lemma {:induction false} UnitGains(names: seq<Node>, nodes: set<Node>)
    requires NoDup(names) && forall n :: n in nodes ==> n in names
    ensures Gains(names, nodes, 1) == |nodes|
  {
    if names == [] {
      assert nodes == {};
    } else {
      var front, last := names[..|names| - 1], names[|names| - 1];
      assert names == front + [last];
      UnitGains(front, nodes - {last});
      GainsElsewhere(front, nodes, 1, last);
    }
  }

  /** If the nodes of a set gain `gain` each and no other node changes, the sum gains as much. */
  lemma {:induction false} UniformGain(p: Plan, limit: nat, j: Job, j': Job, names: seq<Node>, nodes: set<Node>,
                                       gain: int)
    requires ValidJob(p, j) && ValidJob(p, j') && forall n :: n in names ==> n in p.deps
    requires forall n :: n in names ==>
      NodePotential(limit, j', n) == NodePotential(limit, j, n) + (if n in nodes then gain else 0)
    ensures Potential(p, limit, j', names) == Potential(p, limit, j, names) + Gains(names, nodes, gain)
  {
    if names != [] {
      var front, last := names[..|names| - 1], names[|names| - 1];
      assert names == front + [last];
      UniformGain(p, limit, j, j', front, nodes, gain);
      assert last in names;
    }
  }

  lemma OneChangePotential(p: Plan, limit: nat, j: Job, j': Job, names: seq<Node>, n: Node)
    requires ValidJob(p, j) && ValidJob(p, j') && Enumerates(names, p.deps.Keys) && n in p.deps
    requires forall m :: m in p.deps && m != n ==> NodePotential(limit, j', m) == NodePotential(limit, j, m)
    ensures Potential(p, limit, j', names)
         == Potential(p, limit, j, names) + NodePotential(limit, j', n) - NodePotential(limit, j, n)
  {
    var gain := NodePotential(limit, j', n) - NodePotential(limit, j, n);
    GainsOfOne(names, n, gain);
    UniformGain(p, limit, j, j', names, {n}, gain);
  }

  /** Steps that make progress: claims, reports and missing-dependency recoveries. */
  predicate Productive(e: Event) {
    e.Claim? || e.ReportDone? || e.ReportFailure? || e.MissingDeps?
  }

  /** Nodes taken back from their runner by preemption or by a heartbeat timeout. */
  function Setbacks(e: Event): nat {
    match e
    case AckPreemption(_) => 1
    case HeartbeatTimeout(expired) => |expired|
    case _ => 0
  }

  lemma StatusPotential(p: Plan, limit: nat, j: Job, n: Node, to: Status, names: seq<Node>)
    requires ValidJob(p, j) && Enumerates(names, p.deps.Keys) && n in p.deps
    ensures Potential(p, limit, SetStatus(j, n, to), names)
         == Potential(p, limit, j, names) + Weight(to) - Weight(j.status[n])
  {
    OneChangePotential(p, limit, j, SetStatus(j, n, to), names, n);
  }

  /** A retry pays for its new ready row with the retry it uses up. */
  lemma RetryPotential(p: Plan, limit: nat, j: Job, n: Node, nonRetryable: bool, names: seq<Node>)
    requires ValidJob(p, j) && Enumerates(names, p.deps.Keys)
    requires n in p.deps && j.status[n].Running?
    ensures Potential(p, limit, FailureOrRetry(j, n, nonRetryable, limit), names) < Potential(p, limit, j, names)
  {
    OneChangePotential(p, limit, j, FailureOrRetry(j, n, nonRetryable, limit), names, n);
  }

  /** A row sent back for recovery uses up 4 and gains at most 2. */
  lemma SentBackPotential(p: Plan, limit: nat, j: Job, n: Node, names: seq<Node>)
    requires ValidJob(p, j) && Enumerates(names, p.deps.Keys)
    requires n in p.deps && j.recoveries[n] < 2
    ensures ValidJob(p, SentBack(j, n))
    ensures Potential(p, limit, SentBack(j, n), names) == Potential(p, limit, j, names) - 2 - Weight(j.status[n])
  {
    OneChangePotential(p, limit, j, SentBack(j, n), names, n);
  }

  lemma RelaunchPotential(p: Plan, limit: nat, j: Job, c: Node, producer: Node, names: seq<Node>)
    requires ValidJob(p, j) && Enumerates(names, p.deps.Keys)
    requires c in p.deps && producer in p.deps && j.status[c].Running? && j.recoveries[producer] == 0
    ensures Potential(p, limit, SetStatus(SentBack(j, producer), c, Pending), names) < Potential(p, limit, j, names)
  {
    SentBackPotential(p, limit, j, producer, names);
    StatusPotential(p, limit, SentBack(j, producer), c, Pending, names);
  }

  lemma RecoveryPotential(p: Plan, limit: nat, j: Job, c: Node, r: Recovery, names: seq<Node>)
    requires ValidJob(p, j) && Enumerates(names, p.deps.Keys)
    requires c in p.deps && j.status[c].Running?
    requires r.RetryFetch? ==> j.recoveries[c] < 2
    requires r.Relaunch? ==> r.producer in p.deps && j.recoveries[r.producer] == 0
    ensures Potential(p, limit, Recover(j, c, r), names) < Potential(p, limit, j, names)
  {
    if r.RetryFetch? {
      SentBackPotential(p, limit, j, c, names);
    } else if r.Relaunch? {
      RelaunchPotential(p, limit, j, c, r.producer, names);
    } else {
      StatusPotential(p, limit, j, c, Failed, names);
    }
  }

  lemma UntouchedPotential(p: Plan, limit: nat, j: Job, j': Job, names: seq<Node>)
    requires ValidJob(p, j) && ValidJob(p, j') && Enumerates(names, p.deps.Keys)
    requires forall n :: n in p.deps ==> NodePotential(limit, j', n) == NodePotential(limit, j, n)
    ensures Potential(p, limit, j', names) == Potential(p, limit, j, names)
  {
    UniformGain(p, limit, j, j', names, {}, 1);
    UnitGains(names, {});
  }

  lemma HeartbeatPotential(p: Plan, limit: nat, j: Job, expired: set<Node>, names: seq<Node>)
    requires ValidJob(p, j) && Enumerates(names, p.deps.Keys)
    requires forall n :: n in expired ==> n in j.status && j.status[n].Running?
    ensures Potential(p, limit, Reset(j, expired), names) == Potential(p, limit, j, names) + |expired|
  {
    UniformGain(p, limit, j, Reset(j, expired), names, expired, 1);
    UnitGains(names, expired);
  }

  lemma ProductiveStepPotential(p: Plan, limit: nat, s: RunState, e: Event, names: seq<Node>)
    requires ValidJob(p, s.job) && Enabled(p, s, e) && Enumerates(names, p.deps.Keys)
    requires Productive(e)
    ensures Potential(p, limit, Step(p, limit, s, e).job, names) < Potential(p, limit, s.job, names)
  {
    var j := s.job;
    match e
    case Claim(n) => StatusPotential(p, limit, j, n, Running, names);
    case ReportDone(n) => StatusPotential(p, limit, j, n, Done, names);
    case ReportFailure(n, nonRetryable) => RetryPotential(p, limit, j, n, nonRetryable, names);
    case MissingDeps(c, paths, peers, order) =>
      RecoveryPotential(p, limit, j, c, Diagnose(p, j, c, paths, peers, order), names);
  }

  /** Productive steps lower the potential; only setbacks raise it, by one per node taken back. */
  lemma StepPotential(p: Plan, limit: nat, s: RunState, e: Event, names: seq<Node>)
    requires ValidJob(p, s.job) && Enabled(p, s, e) && Enumerates(names, p.deps.Keys)
    ensures var before := Potential(p, limit, s.job, names);
            var after := Potential(p, limit, Step(p, limit, s, e).job, names);
            if Productive(e) then after < before else after == before + Setbacks(e)
  {
    if Productive(e) {
      ProductiveStepPotential(p, limit, s, e, names);
    } else {
      var j := s.job;
      match e
      case MarkPreempting(n) => StatusPotential(p, limit, j, n, Preempting, names);
      case AckPreemption(n) => StatusPotential(p, limit, j, n, Ready, names);
      case HeartbeatTimeout(expired) => HeartbeatPotential(p, limit, j, expired, names);
      case Propagate(order) =>
        PassKeepsClosedPart(p.deps, j.status, order);
        UntouchedPotential(p, limit, j, Step(p, limit, s, e).job, names);
    }
  }

  function ProductiveSteps(events: seq<Event>): nat {
    if events == [] then 0
    else ProductiveSteps(events[..|events| - 1]) + (if Productive(events[|events| - 1]) then 1 else 0)
  }

  function TotalSetbacks(events: seq<Event>): nat {
    if events == [] then 0
    else TotalSetbacks(events[..|events| - 1]) + Setbacks(events[|events| - 1])
  }

  lemma {:induction false} RunPotential(p: Plan, limit: nat, states: seq<RunState>, events: seq<Event>,
                                        names: seq<Node>)
    requires IsRun(p, limit, states, events) && Enumerates(names, p.deps.Keys)
    requires forall i :: 0 <= i < |states| ==> WithinLimits(limit, states[i].job)
    ensures Potential(p, limit, states[|events|].job, names) + ProductiveSteps(events)
         <= Potential(p, limit, states[0].job, names) + TotalSetbacks(events)
  {
    if events != [] {
      var k := |events| - 1;
      RunPotential(p, limit, states[..|states| - 1], events[..k], names);
      StepPotential(p, limit, states[k], events[k], names);
    }
  }

  lemma {:induction false} FreshPotential(p: Plan, limit: nat, j: Job, names: seq<Node>)
    requires ValidJob(p, j) && Fresh(p, j) && forall n :: n in names ==> n in p.deps
    ensures Potential(p, limit, j, names) <= |names| * (2 * limit + 10)
  {
    if names != [] {
      assert names == names[..|names| - 1] + [names[|names| - 1]];
      FreshPotential(p, limit, j, names[..|names| - 1]);
      assert |names| * (2 * limit + 10) == (|names| - 1) * (2 * limit + 10) + (2 * limit + 10);
    }
  }

  /** Every run of a job with n nodes and retry limit R has at most n(2R + 10) claims, reports
      and recoveries, plus one for each node taken back by preemption or heartbeat timeout. */
  lemma RunsAreBounded(nodes: seq<PlanNode>, limit: nat, states: seq<RunState>, events: seq<Event>, names: seq<Node>)
    requires RunOfPlan(nodes, limit, states, events)
    requires Enumerates(names, InsertRows(nodes).0.deps.Keys)
    ensures ProductiveSteps(events) <= |names| * (2 * limit + 10) + TotalSetbacks(events)
  {
    var p := InsertRows(nodes).0;
    forall i | 0 <= i < |states| ensures WithinLimits(limit, states[i].job) {
      RunsKeepInvariant(nodes, limit, states, events, i);
    }
    RunPotential(p, limit, states, events, names);
    InitialRows(nodes);
    FreshPotential(p, limit, states[0].job, names);
  }
}
