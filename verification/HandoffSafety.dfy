/** Runs of the checkpoint handoff in which no two runners of a worker hold the same node: no
    checkpoint is lost. And how one is lost otherwise. */
module HandoffSafety {
  import opened Prelude
  import opened Handoff
  import opened HandoffRuns

  /** The scheduler gives a node to one runner of a worker at a time: no other record names it when
      its download or its run begins, and no other runner is downloading it. */
  ghost predicate Exclusive(s: State, e: Event) {
    e.Acts? ==>
      && (e.a.BeginRestore? ==> NoOtherRecord(s, e.r, e.a.n))
      && (e.a.StartNode? ==>
            NoOtherRecord(s, e.r, e.a.n) && forall q :: q in s.restoring && s.restoring[q] == e.a.n ==> q == e.r)
  }

  ghost predicate NoOtherRecord(s: State, r: Runner, n: Node) {
    forall q :: q in s.records && s.records[q] == n ==> q == r
  }

  /** The archive is what the workspace would save now. */
  ghost predicate Current(s: State, r: Runner, n: Node) {
    r in s.workspaces ==> n in s.archives && s.archives[n] == Save(s.owners, s.workspaces[r], n)
  }

  ghost predicate TransferKept(s: State, r: Runner)
    requires r in s.transfers
  {
    var t := s.transfers[r];
    && r in s.records && s.records[r] == t.node && (t.full || r in s.stopped)
    && match t.stage
       case Opened => !t.full ==> t.node in s.pending
       case Saved => Current(s, r, t.node)
       case Retained => Current(s, r, t.node)
       case Sending(c) => Current(s, r, t.node) && Lookup(s.archives, t.node) == Some(c)
       case Delivered(c) =>
         Current(s, r, t.node) && Lookup(s.archives, t.node) == Some(c) && Delivery(t.node, c) in s.received
       case Cleared(c) =>
         Current(s, r, t.node) && Lookup(s.archives, t.node) == Some(c) && Delivery(t.node, c) in s.received
  }

  ghost predicate RunnerKept(s: State, r: Runner) {
    && (r in s.transfers ==> TransferKept(s, r))
    && (r in s.records ==> NoOtherRecord(s, r, s.records[r]))
    && (r in s.records && s.records[r] in s.pending ==> Current(s, r, s.records[r]))
    && (r in s.restoring ==> NoOtherRecord(s, r, s.restoring[r]))
  }

  ghost predicate Safe(s: State) {
    Sound(s) && forall r :: RunnerKept(s, r)
  }

  // ---------------------------------------------------------------- frames

  /** All that the state says about a node's checkpoint, deliveries only growing. */
  ghost predicate SameNode(s: State, s': State, n: Node) {
    && Lookup(s'.archives, n) == Lookup(s.archives, n)
    && (n in s'.pending <==> n in s.pending)
    && s.received <= s'.received && s'.owners == s.owners
  }

  lemma HandSparesNode(s: State, r: Runner, op: Operation, n: Node)
    requires CanHand(s, r, op) && (r in s.transfers ==> s.transfers[r].node != n)
    ensures SameNode(s, HandStep(s, r, op), n)
  {
  }

  lemma ActSparesNode(s: State, r: Runner, a: Action, n: Node)
    requires CanAct(s, r, a) && (a.EndRestore? ==> s.restoring[r] != n)
    ensures SameNode(s, ActStep(s, r, a), n)
  {
  }

  // ---------------------------------------------------------------- the acting runner

  /** The runner that answers for a marker is the one whose record names the node. */
  lemma MarkedAnswers(s: State, r: Runner)
    requires Safe(s) && r in s.records && s.records[r] in s.pending
    ensures Answers(s, r, s.records[r])
  {
    var n := s.records[r];
    assert Marked(s, n) && Answered(s, n);
    var q :| Answers(s, q, n);
    assert RunnerKept(s, r);
  }

  /** No node is marked while it is downloaded. */
  lemma DownloadIsUnmarked(s: State, r: Runner)
    requires Safe(s) && r in s.restoring
    ensures s.restoring[r] !in s.pending
  {
    var n := s.restoring[r];
    assert RunnerKept(s, r) && RunnerFits(s, r);
    forall q ensures !Answers(s, q, n) {
    }
    assert Marked(s, n) ==> Answered(s, n);
  }

  lemma HandKeepsRunner(s: State, r: Runner, op: Operation)
    requires CanHand(s, r, op) && Safe(s)
    ensures RunnerKept(HandStep(s, r, op), r)
  {
    assert RunnerKept(s, r) && RunnerFits(s, r);
    if op.Open? && !op.full { MarkedAnswers(s, r); }
    var s' := HandStep(s, r, op);
    forall q | q != r ensures SameRunner(s, s', q) { HandStaysLocal(s, r, op, q); }
  }

  lemma StoppingKeepsRunner(s: State, r: Runner, a: Action)
    requires CanAct(s, r, a) && RunnerKept(s, r) && (a.Stop? || a.Wipe?)
    ensures RunnerKept(ActStep(s, r, a), r)
  {
  }

  /** A node that no other record names is not marked when a runner starts it. */
  lemma StartedIsUnmarked(s: State, r: Runner, n: Node)
    requires Safe(s) && Free(s, r) && NoOtherRecord(s, r, n)
    ensures n !in s.pending
  {
    forall q ensures !Answers(s, q, n) {
    }
    assert Marked(s, n) ==> Answered(s, n);
  }

  lemma ActKeepsRecords(s: State, r: Runner, a: Action)
    requires CanAct(s, r, a) && !a.StartNode?
    ensures ActStep(s, r, a).records == s.records
  {
  }

  lemma ActKeepsRunner(s: State, r: Runner, a: Action)
    requires CanAct(s, r, a) && Safe(s) && Exclusive(s, Acts(r, a))
    ensures RunnerKept(ActStep(s, r, a), r)
  {
    assert RunnerKept(s, r) && RunnerFits(s, r);
    if r in s.records && (r in s.stopped || (r in s.transfers && s.transfers[r].full)) {
      StoppingKeepsRunner(s, r, a);
    } else {
      ActMarksNothing(s, r, a);
      if a.StartNode? { StartedIsUnmarked(s, r, a.n); }
      else {
        ActKeepsRecords(s, r, a);
        assert r in s.records && Marked(s, s.records[r]) ==> Answered(s, s.records[r]);
      }
    }
  }

  // ---------------------------------------------------------------- the other runners

  lemma HandKeepsOthers(s: State, r: Runner, op: Operation, other: Runner)
    requires CanHand(s, r, op) && Safe(s) && other != r
    ensures RunnerKept(HandStep(s, r, op), other)
  {
    assert RunnerKept(s, r) && RunnerKept(s, other);
    var s' := HandStep(s, r, op);
    HandStaysLocal(s, r, op, other);
    if other in s.records { HandSparesNode(s, r, op, s.records[other]); }
  }

  lemma ActKeepsOthers(s: State, r: Runner, a: Action, other: Runner)
    requires CanAct(s, r, a) && Safe(s) && other != r && Exclusive(s, Acts(r, a))
    ensures RunnerKept(ActStep(s, r, a), other)
  {
    assert RunnerKept(s, r) && RunnerKept(s, other);
    var s' := ActStep(s, r, a);
    ActStaysLocal(s, r, a, other);
    if other in s.records { ActSparesNode(s, r, a, s.records[other]); }
    if !a.StartNode? { ActKeepsRecords(s, r, a); }
  }

  // ---------------------------------------------------------------- runs

  lemma StepKeepsSafe(s: State, e: Event)
    requires Enabled(s, e) && Safe(s) && Exclusive(s, e)
    ensures Safe(Step(s, e))
  {
    StepKeepsSound(s, e);
    forall r ensures RunnerKept(Step(s, e), r) {
      match e
      case OtherWorker(_, _) => assert RunnerKept(s, r);
      case Acts(q, a) => if q == r { ActKeepsRunner(s, r, a); } else { ActKeepsOthers(s, q, a, r); }
      case Hands(q, op) => if q == r { HandKeepsRunner(s, r, op); } else { HandKeepsOthers(s, q, op, r); }
    }
  }

  ghost predicate ExclusiveRun(s: State, events: seq<Event>)
    requires IsRun(s, events)
  {
    events != [] ==>
      && ExclusiveRun(s, events[..|events| - 1])
      && Exclusive(After(s, events[..|events| - 1]), events[|events| - 1])
  }

  lemma {:induction false} RunsAreSafe(s: State, events: seq<Event>)
    requires Safe(s) && IsRun(s, events) && ExclusiveRun(s, events)
    ensures Safe(After(s, events))
  {
    if events != [] {
      RunsAreSafe(s, events[..|events| - 1]);
      StepKeepsSafe(After(s, events[..|events| - 1]), events[|events| - 1]);
    }
  }

  lemma StartIsSafe(s: State)
    requires Initial(s)
    ensures Safe(s)
  {
  }

  /** The headnode has taken the retained archive of `r`, and it is what the workspace, if it is
      still there, would save. */
  ghost predicate HandedOver(s: State, r: Runner)
    requires r in s.records
  {
    var n := s.records[r];
    n in s.archives && Delivery(n, s.archives[n]) in s.received && Current(s, r, n)
  }

  lemma HandKeepsRecords(s: State, r: Runner, op: Operation)
    requires CanHand(s, r, op) && !op.DropRecord?
    ensures HandStep(s, r, op).records == s.records
  {
  }

  lemma DroppedIsHandedOver(s: State, r: Runner)
    requires CanHand(s, r, DropRecord) && RunnerKept(s, r)
    ensures HandedOver(s, r)
  {
  }

  /** A marked checkpoint is never replaced by a headnode copy, and a runner record disappears
      only after its checkpoint is handed over. */
  lemma HandoffIsSafe(s: State, events: seq<Event>, e: Event)
    requires Initial(s) && IsRun(s, events) && ExclusiveRun(s, events)
    requires Enabled(After(s, events), e)
    ensures var now := After(s, events);
            && (e.Acts? && e.a.EndRestore? ==> now.restoring[e.r] !in now.pending)
            && (forall r :: r in now.records && r !in Step(now, e).records ==> HandedOver(now, r))
  {
    StartIsSafe(s);
    RunsAreSafe(s, events);
    var now := After(s, events);
    if e.Acts? && e.a.EndRestore? { DownloadIsUnmarked(now, e.r); }
    forall r | r in now.records && r !in Step(now, e).records ensures HandedOver(now, r) {
      assert RunnerKept(now, r);
      DroppedIsHandedOver(now, r);
    }
  }

  // ---------------------------------------------------------------- nothing is lost

  /** The interrupted work of `r` on `n` is still there, or the headnode has it. */
  ghost predicate WorkKept(s: State, r: Runner, n: Node, ws: Workspace) {
    || Delivery(n, Save(s.owners, ws, n)) in s.received
    || (r in s.records && s.records[r] == n && r in s.stopped && r in s.workspaces && s.workspaces[r] == ws)
  }

  lemma OwnStepKeepsWork(s: State, r: Runner, op: Operation, n: Node, ws: Workspace)
    requires CanHand(s, r, op) && RunnerKept(s, r) && WorkKept(s, r, n, ws)
    ensures WorkKept(HandStep(s, r, op), r, n, ws)
  {
    HandKeepsDeliveries(s, r, op);
    if !op.DropRecord? { HandKeepsRecords(s, r, op); }
  }

  lemma StepKeepsWork(s: State, e: Event, r: Runner, n: Node, ws: Workspace)
    requires Enabled(s, e) && Safe(s) && WorkKept(s, r, n, ws) && e != Acts(r, Wipe)
    ensures WorkKept(Step(s, e), r, n, ws)
  {
    assert RunnerKept(s, r) && RunnerFits(s, r);
    match e
    case OtherWorker(_, _) =>
    case Acts(q, a) =>
      if q != r { ActStaysLocal(s, q, a, r); }
      ActKeepsDeliveries(s, q, a);
    case Hands(q, op) =>
      if q == r { OwnStepKeepsWork(s, r, op, n, ws); }
      else {
        HandStaysLocal(s, q, op, r);
        HandKeepsDeliveries(s, q, op);
      }
  }

  lemma ActKeepsDeliveries(s: State, r: Runner, a: Action)
    requires CanAct(s, r, a)
    ensures ActStep(s, r, a).received == s.received && ActStep(s, r, a).owners == s.owners
  {
  }

  lemma HandKeepsDeliveries(s: State, r: Runner, op: Operation)
    requires CanHand(s, r, op)
    ensures s.received <= HandStep(s, r, op).received && HandStep(s, r, op).owners == s.owners
  {
  }

  /** Work of an interrupted runner is never lost: however the run goes on, its workspace and its
      record stay until the headnode has received what the workspace saves. Only the removal of
      the workspace from outside can lose it. */
  lemma {:induction false} InterruptedWorkSurvives(s: State, events: seq<Event>, r: Runner)
    requires Safe(s) && IsRun(s, events) && ExclusiveRun(s, events)
    requires r in s.records && r in s.stopped && r in s.workspaces
    requires Acts(r, Wipe) !in events
    ensures WorkKept(After(s, events), r, s.records[r], s.workspaces[r])
  {
    if events != [] {
      var front := events[..|events| - 1];
      InterruptedWorkSurvives(s, front, r);
      RunsAreSafe(s, front);
      StepKeepsWork(After(s, front), events[|events| - 1], r, s.records[r], s.workspaces[r]);
    }
  }
}
