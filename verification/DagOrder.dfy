/** When a row update leaves a node of a DAG job live below a parent that has not succeeded, and
    when it does not (src/scheduler/persistence.py). */
module DagOrder {
  import opened Prelude
  import opened DagPropagation
  import opened DagRuns

  // ---------------------------------------------------------------- one row

  /** A node that is live without a right of its own needs the good state of its parent `n`. */
  ghost predicate ReliesOn(p: Plan, s: RunState, c: Node, n: Node)
    requires ValidJob(p, s.job)
  {
    c in p.deps && n in p.deps[c] && Live(s.job.status[c]) && c !in s.forced
  }

  ghost function WithStatus(s: RunState, n: Node, to: Status): RunState {
    s.(job := SetStatus(s.job, n, to))
  }

  /** Whatever a report makes of a row: the order is kept if and only if the row itself is in
      order and, unless it is a good parent then, no other node relies on it. */
  lemma RowChangeKeepsOrderExactly(p: Plan, s: RunState, n: Node, to: Status)
    requires ValidJob(p, s.job) && ParentsSucceeded(p, s) && n in p.deps
    ensures var s' := WithStatus(s, n, to);
            ParentsSucceeded(p, s') <==>
            && NodeOrdered(p, s', n)
            && (Succeeded(to) || n in s.relaunched || !exists c :: c != n && ReliesOn(p, s, c, n))
  {
    var s' := WithStatus(s, n, to);
    assert forall d :: d != n ==> (GoodParent(s, d) <==> GoodParent(s', d));
    if c :| c != n && ReliesOn(p, s, c, n) && !GoodParent(s', n) {
      assert !NodeOrdered(p, s', c);
    } else if NodeOrdered(p, s', n) {
      forall c | c in p.deps && c != n ensures NodeOrdered(p, s', c) {
        assert NodeOrdered(p, s, c);
        assert Live(s.job.status[c]) && c !in s.forced && n in p.deps[c] ==> ReliesOn(p, s, c, n);
      }
    }
  }

  /** A done node that leaves done without being skipped breaks the order if and only if a live,
      unexempted child relies on it. */
  lemma LeavingDone(p: Plan, s: RunState, n: Node, to: Status)
    requires ValidJob(p, s.job) && ParentsSucceeded(p, s) && n in p.deps
    requires s.job.status[n].Done? && !Succeeded(to)
    ensures ParentsSucceeded(p, WithStatus(s, n, to)) <==>
            n in s.relaunched || !exists c :: ReliesOn(p, s, c, n) && (c == n ==> Live(to))
  {
    var s' := WithStatus(s, n, to);
    RowChangeKeepsOrderExactly(p, s, n, to);
    assert NodeOrdered(p, s, n);
    assert forall d :: d != n ==> (GoodParent(s, d) <==> GoodParent(s', d));
    assert NodeOrdered(p, s', n) <==> n in s.relaunched || !(ReliesOn(p, s, n, n) && Live(to));
  }

  // ---------------------------------------------------------------- late reports

  /** What is carried out for a node: a failure, a preemption, and missing dependencies with the
      outcome of their diagnosis. */
  datatype Report = Failure(nonRetryable: bool) | Preemption | MissingFiles(outcome: Recovery)

  predicate KnownProducer(p: Plan, r: Report) {
    r.MissingFiles? && r.outcome.Relaunch? ==> r.outcome.producer in p.deps
  }

  /** The state after the row updates of a report, as in Step. */
  ghost function AfterReport(p: Plan, limit: nat, s: RunState, n: Node, r: Report): RunState
    requires ValidJob(p, s.job) && n in p.deps && KnownProducer(p, r)
  {
    match r
    case Failure(nonRetryable) => s.(job := FailureOrRetry(s.job, n, nonRetryable, limit))
    case Preemption => WithStatus(s, n, Ready)
    case MissingFiles(outcome) =>
      var s' := s.(job := Recover(s.job, n, outcome));
      if outcome.Relaunch? then Relaunched(s', s, outcome.producer) else s'
  }

  /** The bookkeeping of a relaunch. */
  ghost function Relaunched(s': RunState, s: RunState, producer: Node): RunState
    requires producer in s.job.status
  {
    s'.(relaunched := s.relaunched + {producer},
        forced := if Live(s.job.status[producer]) then s.forced else s.forced + {producer})
  }

  /** What the report makes of the node's own row. */
  function ReportedStatus(limit: nat, retries: nat, r: Report): Status {
    match r
    case Failure(nonRetryable) => if !nonRetryable && retries < limit then Ready else Failed
    case Preemption => Ready
    case MissingFiles(outcome) =>
      match outcome
      case RetryFetch => Ready
      case Relaunch(_) => Pending
      case _ => Failed
  }

  /** A live, unexempted child relies on the node, and the node is not exempt itself as a producer
      that was sent back. */
  ghost predicate TakesSupport(p: Plan, limit: nat, s: RunState, n: Node, r: Report)
    requires ValidJob(p, s.job) && n in p.deps
  {
    && n !in s.relaunched && r != MissingFiles(Relaunch(n))
    && exists c :: ReliesOn(p, s, c, n) && (c == n ==> Live(ReportedStatus(limit, s.job.retries[n], r)))
  }

  /** Carried out after its node is done, a report breaks the order exactly if it takes support. */
  lemma LateUpdate(p: Plan, limit: nat, s: RunState, n: Node, r: Report)
    requires RunInvariant(p, limit, s) && n in p.deps && s.job.status[n].Done? && KnownProducer(p, r)
    ensures ValidJob(p, AfterReport(p, limit, s, n, r).job)
    ensures ParentsSucceeded(p, AfterReport(p, limit, s, n, r)) <==> !TakesSupport(p, limit, s, n, r)
  {
    if r.MissingFiles? && r.outcome.Relaunch? {
      LateRelaunch(p, s, n, r.outcome.producer);
    } else {
      var to := ReportedStatus(limit, s.job.retries[n], r);
      LeavingDone(p, s, n, to);
      SameStatuses(p, WithStatus(s, n, to), AfterReport(p, limit, s, n, r));
    }
  }

  lemma SameStatuses(p: Plan, s: RunState, s': RunState)
    requires ValidJob(p, s.job) && ValidJob(p, s'.job)
    requires s'.job.status == s.job.status && s'.relaunched == s.relaunched && s'.forced == s.forced
    ensures ParentsSucceeded(p, s') <==> ParentsSucceeded(p, s)
  {
    assert forall d :: GoodParent(s, d) <==> GoodParent(s', d);
    assert forall n :: n in p.deps ==> (NodeOrdered(p, s, n) <==> NodeOrdered(p, s', n));
  }

  /** The relaunch of a producer by a consumer that is done: first the producer is sent back, which
      keeps the order, then the consumer leaves done. */
  lemma LateRelaunch(p: Plan, s: RunState, n: Node, producer: Node)
    requires ValidJob(p, s.job) && ParentsSucceeded(p, s)
    requires n in p.deps && s.job.status[n].Done? && producer in p.deps
    ensures var s' := Relaunched(s.(job := Recover(s.job, n, Relaunch(producer))), s, producer);
            && ValidJob(p, s'.job)
            && (ParentsSucceeded(p, s') <==>
                n in s.relaunched || n == producer || !exists c :: c != n && ReliesOn(p, s, c, n))
  {
    var mid := Relaunched(s.(job := SetStatus(s.job, producer, Ready)), s, producer);
    OneChangeKeepsOrder(p, s, mid, producer);
    var s' := Relaunched(s.(job := Recover(s.job, n, Relaunch(producer))), s, producer);
    RowChangeKeepsOrderExactly(p, mid, n, Pending);
    SameStatuses(p, WithStatus(mid, n, Pending), s');
    assert NodeOrdered(p, WithStatus(mid, n, Pending), n);
    assert forall c :: c != producer ==> (ReliesOn(p, mid, c, n) <==> ReliesOn(p, s, c, n));
    assert n != producer ==> (ReliesOn(p, mid, producer, n) <==> ReliesOn(p, s, producer, n));
  }

  /** The failure reasons that handle_next_node looks at. */
  datatype Reason = JobPreempted | Cancelled | Unspecified

  /** The status that a runner sends; `outcome` is what the diagnosis of its missing paths gives. */
  datatype Said = SaidFailed(nonRetryable: bool) | SaidPreempted | SaidMissing(outcome: Recovery)

  datatype Message = Message(said: Said, exitCode: Option<int>, reason: Reason)

  /** The order of the branches: a preemption is recognised before the status is looked at. */
  function ReportOf(m: Message): Report {
    if m.said.SaidPreempted? || m.reason.JobPreempted? then Preemption
    else match m.said
         case SaidFailed(nonRetryable) => Failure(nonRetryable)
         case SaidMissing(outcome) => MissingFiles(outcome)
  }

  /** The message looks like the end of a process that was stopped. */
  predicate LooksStopped(m: Message) {
    || m.exitCode in {None, Some(137), Some(-15)}
    || m.reason.JobPreempted? || m.reason.Cancelled? || m.said.SaidPreempted?
  }

  /** Dropped are the messages about a terminated job, about a node that is being preempted, and,
      about one that ever was preempted, those of a stopped process. */
  predicate Ignored(job: JobStatus, status: Status, everPreempted: bool, m: Message) {
    job.JobFailed? || job.JobCompleted? || status.Preempting? || (everPreempted && LooksStopped(m))
  }

  ghost function AfterMessage(p: Plan, limit: nat, s: RunState, n: Node, job: JobStatus, everPreempted: bool,
                              m: Message): RunState
    requires ValidJob(p, s.job) && n in p.deps && KnownProducer(p, ReportOf(m))
  {
    if Ignored(job, s.job.status[n], everPreempted, m) then s else AfterReport(p, limit, s, n, ReportOf(m))
  }

  /** A message that arrives after its node is done. The handler does not compare the runner, and
      the status only with preempting: the message breaks the order if and only if it is not among
      the dropped ones and takes support. */
  lemma LateReport(p: Plan, limit: nat, s: RunState, n: Node, job: JobStatus, everPreempted: bool, m: Message)
    requires RunInvariant(p, limit, s) && n in p.deps && s.job.status[n].Done? && KnownProducer(p, ReportOf(m))
    ensures ParentsSucceeded(p, AfterMessage(p, limit, s, n, job, everPreempted, m)) <==>
            || job.JobFailed? || job.JobCompleted? || (everPreempted && LooksStopped(m))
            || !TakesSupport(p, limit, s, n, ReportOf(m))
  {
    LateUpdate(p, limit, s, n, ReportOf(m));
  }

  /** No propagation pass repairs it while the child runs or is done: a pass touches neither. */
  lemma PassDoesNotRepair(p: Plan, s: RunState, n: Node, c: Node, order: seq<Node>)
    requires ValidJob(p, s.job) && Enumerates(order, p.deps.Keys) && n in p.deps
    requires !GoodParent(s, n) && ReliesOn(p, s, c, n) && !s.job.status[c].Ready?
    ensures !ParentsSucceeded(p, s.(job := s.job.(status := Pass(p.deps, s.job.status, order))))
  {
    var s' := s.(job := s.job.(status := Pass(p.deps, s.job.status, order)));
    PassKeepsClosedPart(p.deps, s.job.status, order);
    assert !GoodParent(s', n) && !NodeOrdered(p, s', c);
  }

  // ---------------------------------------------------------------- recoveries

  /** The order without exemptions: every live node has succeeded parents. */
  ghost predicate Strict(p: Plan, j: Job)
    requires ValidJob(p, j)
  {
    forall n :: n in p.deps && Live(j.status[n]) ==> AllParentsSucceeded(j.status, p.deps[n])
  }

  /** The producer has succeeded parents and none of them is itself. */
  ghost predicate CanRunAgain(p: Plan, j: Job, producer: Node)
    requires ValidJob(p, j) && producer in p.deps
  {
    AllParentsSucceeded(j.status, p.deps[producer]) && producer !in p.deps[producer]
  }

  /** A live node besides the two depends on the producer. */
  ghost predicate OtherLiveChild(p: Plan, j: Job, c: Node, producer: Node)
    requires ValidJob(p, j)
  {
    exists d :: d in p.deps && d != c && d != producer && Live(j.status[d]) && producer in p.deps[d]
  }

  lemma NoOtherChildKeepsStrict(p: Plan, j: Job, j': Job, c: Node, producer: Node)
    requires ValidJob(p, j) && ValidJob(p, j') && Strict(p, j) && !OtherLiveChild(p, j, c, producer)
    requires c in p.deps && !Succeeded(j.status[c]) && j'.status == j.status[producer := Ready][c := Pending]
    ensures forall d :: d in p.deps && d != c && d != producer && Live(j.status[d]) ==>
              AllParentsSucceeded(j'.status, p.deps[d])
  {
    forall d | d in p.deps && d != c && d != producer && Live(j.status[d])
      ensures AllParentsSucceeded(j'.status, p.deps[d])
    {
      assert AllParentsSucceeded(j.status, p.deps[d]);
    }
  }

  lemma RelaunchedRows(j: Job, c: Node, producer: Node)
    requires j.recoveries.Keys == j.status.Keys && c in j.status && producer in j.status
    ensures Recover(j, c, Relaunch(producer)).status == j.status[producer := Ready][c := Pending]
  {
  }

  /** Sending a producer back keeps the strict order if and only if the producer may run and no
      live node but the consumer depends on it; a consumer that is its own producer just waits. */
  lemma RelaunchKeepsStrictExactly(p: Plan, j: Job, c: Node, producer: Node)
    requires ValidJob(p, j) && Strict(p, j)
    requires c in p.deps && j.status[c].Running? && producer in p.deps
    ensures ValidJob(p, Recover(j, c, Relaunch(producer)))
    ensures Strict(p, Recover(j, c, Relaunch(producer))) <==>
            (producer == c || CanRunAgain(p, j, producer)) && !OtherLiveChild(p, j, c, producer)
  {
    var j' := Recover(j, c, Relaunch(producer));
    RelaunchedRows(j, c, producer);
    if d :| d in p.deps && d != c && d != producer && Live(j.status[d]) && producer in p.deps[d] {
      assert Live(j'.status[d]) && !Succeeded(j'.status[producer]);
    } else {
      NoOtherChildKeepsStrict(p, j, j', c, producer);
    }
  }
}
