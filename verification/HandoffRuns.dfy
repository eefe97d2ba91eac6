/** What every run of the checkpoint handoff of module Handoff keeps. */
module HandoffRuns {
  import opened Prelude
  import opened Handoff

  // ---------------------------------------------------------------- all runs

  /** `r` answers for the marker of `n`: its record names the node, it works on nothing else, and
      its handoff has not cleared the marker. */
  ghost predicate Answers(s: State, r: Runner, n: Node) {
    && r in s.records && s.records[r] == n && n in s.archives
    && (r in s.stopped || (r in s.transfers && s.transfers[r].full))
    && (r in s.transfers ==> s.transfers[r].node == n && !s.transfers[r].stage.Cleared?)
  }

  ghost predicate Answered(s: State, n: Node) {
    exists r :: Answers(s, r, n)
  }

  predicate Marked(s: State, n: Node) {
    n in s.pending
  }

  ghost predicate MarkersAnswered(s: State) {
    forall n :: Marked(s, n) ==> Answered(s, n)
  }

  ghost predicate TransferFits(s: State, r: Runner)
    requires r in s.transfers
  {
    var t := s.transfers[r];
    && r in s.records
    && (t.full ==> s.records[r] == t.node && r !in s.restoring)
    && (t.stage.Saved? ==> t.full && t.node in s.archives)
  }

  /** All that the state says about a runner. */
  ghost predicate SameRunner(s: State, s': State, r: Runner) {
    && Lookup(s'.records, r) == Lookup(s.records, r)
    && Lookup(s'.workspaces, r) == Lookup(s.workspaces, r)
    && Lookup(s'.transfers, r) == Lookup(s.transfers, r)
    && Lookup(s'.restoring, r) == Lookup(s.restoring, r)
    && (r in s'.stopped <==> r in s.stopped)
  }

  lemma HandStaysLocal(s: State, r: Runner, op: Operation, other: Runner)
    requires CanHand(s, r, op) && other != r
    ensures SameRunner(s, HandStep(s, r, op), other)
  {
  }

  lemma ActStaysLocal(s: State, r: Runner, a: Action, other: Runner)
    requires CanAct(s, r, a) && other != r
    ensures SameRunner(s, ActStep(s, r, a), other)
  {
  }

  lemma HandKeepsArchives(s: State, r: Runner, op: Operation, n: Node)
    requires CanHand(s, r, op) && n in s.archives
    ensures n in HandStep(s, r, op).archives
  {
  }

  lemma ActKeepsArchives(s: State, r: Runner, a: Action, n: Node)
    requires CanAct(s, r, a) && n in s.archives
    ensures n in ActStep(s, r, a).archives
  {
  }

  ghost predicate RunnerFits(s: State, r: Runner) {
    && (r in s.transfers ==> TransferFits(s, r))
    && (r in s.restoring ==> r in s.workspaces && r !in s.stopped)
  }

  lemma HandFits(s: State, r: Runner, op: Operation)
    requires CanHand(s, r, op) && RunnerFits(s, r)
    ensures RunnerFits(HandStep(s, r, op), r)
  {
  }

  lemma ActFits(s: State, r: Runner, a: Action)
    requires CanAct(s, r, a) && RunnerFits(s, r)
    ensures RunnerFits(ActStep(s, r, a), r)
  {
  }

  lemma StepFits(s: State, e: Event, r: Runner)
    requires Enabled(s, e) && RunnerFits(s, r)
    ensures RunnerFits(Step(s, e), r)
  {
    match e
    case OtherWorker(_, _) =>
    case Acts(actor, a) =>
      if actor == r { ActFits(s, r, a); }
      else {
        ActStaysLocal(s, actor, a, r);
        if r in s.transfers && s.transfers[r].stage.Saved? { ActKeepsArchives(s, actor, a, s.transfers[r].node); }
      }
    case Hands(actor, op) =>
      if actor == r { HandFits(s, r, op); }
      else {
        HandStaysLocal(s, actor, op, r);
        if r in s.transfers && s.transfers[r].stage.Saved? { HandKeepsArchives(s, actor, op, s.transfers[r].node); }
      }
  }

  lemma HandKeepsAnswer(s: State, r: Runner, op: Operation, n: Node)
    requires CanHand(s, r, op) && RunnerFits(s, r) && Answers(s, r, n)
    requires n in HandStep(s, r, op).pending
    ensures Answers(HandStep(s, r, op), r, n)
  {
  }

  lemma ActKeepsAnswer(s: State, r: Runner, a: Action, n: Node)
    requires CanAct(s, r, a) && RunnerFits(s, r) && Answers(s, r, n)
    ensures Answers(ActStep(s, r, a), r, n)
  {
    ActKeepsArchives(s, r, a, n);
  }

  lemma StepKeepsAnswer(s: State, e: Event, r: Runner, n: Node)
    requires Enabled(s, e) && RunnerFits(s, r) && Answers(s, r, n)
    requires n in Step(s, e).pending
    ensures Answers(Step(s, e), r, n)
  {
    match e
    case OtherWorker(_, _) =>
    case Acts(actor, a) =>
      if actor == r { ActKeepsAnswer(s, r, a, n); }
      else {
        ActStaysLocal(s, actor, a, r);
        ActKeepsArchives(s, actor, a, n);
      }
    case Hands(actor, op) =>
      if actor == r { HandKeepsAnswer(s, r, op, n); }
      else {
        HandStaysLocal(s, actor, op, r);
        HandKeepsArchives(s, actor, op, n);
      }
  }

  lemma ActMarksNothing(s: State, r: Runner, a: Action)
    requires CanAct(s, r, a)
    ensures ActStep(s, r, a).pending == s.pending
  {
  }

  lemma HandMarks(s: State, r: Runner, op: Operation, n: Node)
    requires CanHand(s, r, op)
    ensures n in HandStep(s, r, op).pending <==>
            if op.MarkPending? && n == s.transfers[r].node then true
            else n in s.pending && !(op.ClearPending? && n == s.transfers[r].node)
  {
  }

  lemma NewMarkerIsAnswered(s: State, r: Runner, n: Node)
    requires CanHand(s, r, MarkPending) && RunnerFits(s, r) && n == s.transfers[r].node
    ensures Answers(HandStep(s, r, MarkPending), r, n)
  {
  }

  ghost predicate Sound(s: State) {
    (forall r :: RunnerFits(s, r)) && MarkersAnswered(s)
  }

  /** Every marker keeps a record of its node and an archive, whatever the interleaving, the
      failed uploads and the crashes. */
  lemma StepKeepsSound(s: State, e: Event)
    requires Enabled(s, e) && Sound(s)
    ensures Sound(Step(s, e))
  {
    var s' := Step(s, e);
    forall r ensures RunnerFits(s', r) {
      StepFits(s, e, r);
    }
    forall n | Marked(s', n) ensures Answered(s', n) {
      if Marked(s, n) {
        assert Answered(s, n);
        var r :| Answers(s, r, n);
        StepKeepsAnswer(s, e, r, n);
      } else {
        match e
        case OtherWorker(_, _) =>
        case Acts(r, a) => ActMarksNothing(s, r, a);
        case Hands(r, op) => HandMarks(s, r, op, n); NewMarkerIsAnswered(s, r, n);
      }
    }
  }

  lemma {:induction false} RunsAreSound(s: State, events: seq<Event>)
    requires Initial(s) && IsRun(s, events)
    ensures Sound(After(s, events))
  {
    if events != [] {
      RunsAreSound(s, events[..|events| - 1]);
      StepKeepsSound(After(s, events[..|events| - 1]), events[|events| - 1]);
    }
  }

  // ---------------------------------------------------------------- the marker and the download

  /** No download that is under way would replace a marked archive. */
  ghost predicate RestoresSpareMarked(s: State) {
    forall q :: q in s.restoring ==> s.restoring[q] !in s.pending
  }

  lemma ActRestoring(s: State, r: Runner, a: Action, q: Runner)
    requires CanAct(s, r, a) && q in ActStep(s, r, a).restoring
    ensures (a.BeginRestore? && q == r && ActStep(s, r, a).restoring[q] == a.n)
            || (q in s.restoring && ActStep(s, r, a).restoring[q] == s.restoring[q])
  {
    if q != r { ActStaysLocal(s, r, a, q); }
  }

  ghost predicate MarksDuringRestore(s: State, e: Event)
    requires Enabled(s, e)
  {
    e.Hands? && e.op.MarkPending? && exists q :: q in s.restoring && s.restoring[q] == s.transfers[e.r].node
  }

  /** The marker is checked before the download, not after it: a marked checkpoint can be
      overwritten by a headnode copy exactly if it is marked during a download of its node. */
  lemma MarkedAtRiskIffMarkedDuringRestore(s: State, e: Event)
    requires Enabled(s, e) && Sound(s) && RestoresSpareMarked(s)
    ensures !RestoresSpareMarked(Step(s, e)) <==> MarksDuringRestore(s, e)
  {
    var s' := Step(s, e);
    if MarksDuringRestore(s, e) {
      var q :| q in s.restoring && s.restoring[q] == s.transfers[e.r].node;
      HandMarks(s, e.r, e.op, s.restoring[q]);
      assert RunnerFits(s, e.r);
      assert q in s'.restoring && s'.restoring[q] in s'.pending;
    } else {
      forall q | q in s'.restoring ensures s'.restoring[q] !in s'.pending {
        match e
        case OtherWorker(_, _) =>
        case Acts(r, a) =>
          ActMarksNothing(s, r, a);
          ActRestoring(s, r, a, q);
          assert Marked(s, s'.restoring[q]) ==> Answered(s, s'.restoring[q]);
        case Hands(r, op) =>
          assert RunnerFits(s, r);
          HandMarks(s, r, op, s'.restoring[q]);
      }
    }
  }

  /** And that download does replace it, if the headnode has a copy. */
  lemma LateDownloadReplacesMarked(s: State, q: Runner)
    requires Enabled(s, Acts(q, EndRestore)) && s.restoring[q] in s.pending && s.restoring[q] in s.headnode
    ensures var s' := Step(s, Acts(q, EndRestore)); var n := s.restoring[q];
            n in s'.pending && n in s'.archives && s'.archives[n] == s.headnode[n]
  {
  }

  /** The archive is replaced before the marker is written: after a crash between the two, another
      runner of the node takes the headnode's older copy. The workspace still has the newer one. */
  lemma UnmarkedArchiveIsReplaced(s: State, r: Runner, q: Runner)
    requires Sound(s) && r in s.transfers && s.transfers[r].stage.Saved? && s.transfers[r].node !in s.pending
    requires q != r && Free(s, q) && s.transfers[r].node in s.headnode
    ensures var n := s.transfers[r].node;
            var events := [Hands(r, Abort)] + [Acts(q, BeginRestore(n))] + [Acts(q, EndRestore)];
            && IsRun(s, events)
            && n in After(s, events).archives && After(s, events).archives[n] == s.headnode[n]
            && Lookup(After(s, events).workspaces, r) == Lookup(s.workspaces, r)
  {
    var n := s.transfers[r].node;
    var e1, e2, e3 := Hands(r, Abort), Acts(q, BeginRestore(n)), Acts(q, EndRestore);
    assert RunnerFits(s, r) && RunnerFits(s, q);
    RunMore(s, [e1], e2);
    RunMore(s, [e1] + [e2], e3);
  }

  lemma RunMore(s: State, events: seq<Event>, e: Event)
    requires IsRun(s, events) && Enabled(After(s, events), e)
    ensures IsRun(s, events + [e]) && After(s, events + [e]) == Step(After(s, events), e)
  {
    assert (events + [e])[..|events + [e]| - 1] == events;
  }
}
