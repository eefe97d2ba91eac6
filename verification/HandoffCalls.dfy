/** preserve_runner_record and preserve_pending_runners as whole calls
    (src/runner/local_workspace.py), the runs of module Handoff they are, and how a call for one
    runner can drop the record of another that still works. */
module HandoffCalls {
  import opened Prelude
  import opened Handoff
  import opened HandoffRuns
  import opened HandoffSafety

  /** What a call leaves, and whether it returns rather than raises. */
  datatype Outcome = Outcome(s: State, ok: bool)

  function Retain(s: State, r: Runner): State
    requires r in s.records && r in s.workspaces
  {
    var n := s.records[r];
    s.(archives := s.archives[n := Save(s.owners, s.workspaces[r], n)], pending := s.pending + {n})
  }

  function HandOver(s: State, r: Runner): State
    requires r in s.records && s.records[r] in s.archives
  {
    var n := s.records[r];
    var c := s.archives[n];
    s.(headnode := s.headnode[n := c], received := s.received + {Delivery(n, c)},
       pending := s.pending - {n}, records := s.records - {r})
  }

  /** preserve_runner_record when no other call holds the record. */
  function Preserve(s: State, r: Runner, full: bool, uploaded: bool): Outcome {
    if r !in s.records then Outcome(s, true)
    else if !full && s.records[r] !in s.pending then Outcome(s, true)
    else
      var s' := if full && r in s.workspaces then Retain(s, r) else s;
      if s.records[r] !in s'.archives || !uploaded then Outcome(s', false)
      else Outcome(HandOver(s', r), true)
  }

  // ---------------------------------------------------------------- a call is a run

  ghost predicate Leads(s: State, events: seq<Event>, s': State) {
    IsRun(s, events) && After(s, events) == s'
  }

  lemma Extend(s: State, events: seq<Event>, s1: State, e: Event)
    requires Leads(s, events, s1) && Enabled(s1, e)
    ensures Leads(s, events + [e], Step(s1, e))
  {
    RunMore(s, events, e);
  }

  /** The state between the marker and the upload. */
  function Retaining(s: State, r: Runner, full: bool): State
    requires r in s.records
  {
    (if full && r in s.workspaces then Retain(s, r) else s)
    .(transfers := s.transfers[r := Transfer(s.records[r], full, Retained)])
  }

  lemma SavingLeads(s: State, r: Runner) returns (events: seq<Event>)
    requires r in s.records && r !in s.transfers && r !in s.restoring && r in s.workspaces
    ensures Leads(s, events, Retaining(s, r, true))
  {
    var s1 := Step(s, Hands(r, Open(true)));
    var s2 := Step(s1, Hands(r, SaveArchive));
    Extend(s, [Hands(r, Open(true))], s1, Hands(r, SaveArchive));
    Extend(s, [Hands(r, Open(true))] + [Hands(r, SaveArchive)], s2, Hands(r, MarkPending));
    events := [Hands(r, Open(true))] + [Hands(r, SaveArchive)] + [Hands(r, MarkPending)];
  }

  lemma SkippingLeads(s: State, r: Runner, full: bool) returns (events: seq<Event>)
    requires r in s.records && r !in s.transfers
    requires if full then r !in s.restoring && r !in s.workspaces else s.records[r] in s.pending
    ensures Leads(s, events, Retaining(s, r, full))
  {
    Extend(s, [Hands(r, Open(full))], Step(s, Hands(r, Open(full))), Hands(r, SkipSave));
    events := [Hands(r, Open(full))] + [Hands(r, SkipSave)];
  }

  /** The upload and what follows it. */
  lemma HandingOverLeads(s: State, r: Runner) returns (events: seq<Event>)
    requires r in s.records && r in s.transfers && s.transfers[r].stage.Retained?
    requires s.transfers[r].node == s.records[r] && s.records[r] in s.archives
    ensures Leads(s, events, HandOver(s, r).(transfers := s.transfers - {r}))
  {
    var c := s.archives[s.records[r]];
    var s1 := Step(s, Hands(r, Read));
    var s2 := Step(s1, Hands(r, Deliver));
    Extend(s, [Hands(r, Read)], s1, Hands(r, Deliver));
    var s3 := Step(s2, Hands(r, ClearPending));
    Extend(s, [Hands(r, Read)] + [Hands(r, Deliver)], s2, Hands(r, ClearPending));
    Extend(s, [Hands(r, Read)] + [Hands(r, Deliver)] + [Hands(r, ClearPending)], s3, Hands(r, DropRecord));
    events := [Hands(r, Read)] + [Hands(r, Deliver)] + [Hands(r, ClearPending)] + [Hands(r, DropRecord)];
    assert s3.transfers - {r} == s.transfers - {r};
  }

  lemma {:induction false} RunsChain(s: State, a: seq<Event>, s1: State, b: seq<Event>, s2: State)
    requires Leads(s, a, s1) && Leads(s1, b, s2)
    ensures Leads(s, a + b, s2)
  {
    if b == [] {
      assert a + b == a;
    } else {
      var front := b[..|b| - 1];
      RunsChain(s, a, s1, front, After(s1, front));
      assert a + b == a + front + [b[|b| - 1]];
      Extend(s, a + front, After(s1, front), b[|b| - 1]);
    }
  }

  /** What a call leaves in the protocol: a full call that fails ends its executor. */
  function Left(s: State, r: Runner, full: bool, uploaded: bool): State {
    var o := Preserve(s, r, full, uploaded);
    if full && !o.ok then StopRunner(o.s, r) else o.s
  }

  /** From the marker to the end of the call. */
  lemma RestLeads(s: State, r: Runner, full: bool, uploaded: bool) returns (events: seq<Event>)
    requires r in s.records && r !in s.transfers
    requires full || s.records[r] in s.pending
    ensures Leads(Retaining(s, r, full), events, Left(s, r, full, uploaded))
  {
    var mid := Retaining(s, r, full);
    assert mid.transfers - {r} == s.transfers;
    if s.records[r] in mid.archives && uploaded {
      events := HandingOverLeads(mid, r);
    } else {
      events := [Hands(r, Abort)];
    }
  }

  /** A whole call, whether it returns or raises, is a run of the protocol. */
  lemma PreserveIsRun(s: State, r: Runner, full: bool, uploaded: bool) returns (events: seq<Event>)
    requires r !in s.transfers && r !in s.restoring
    ensures Leads(s, events, Left(s, r, full, uploaded))
  {
    if r !in s.records || (!full && s.records[r] !in s.pending) {
      events := [];
    } else {
      var first: seq<Event>;
      if full && r in s.workspaces { first := SavingLeads(s, r); } else { first := SkippingLeads(s, r, full); }
      var rest := RestLeads(s, r, full, uploaded);
      RunsChain(s, first, Retaining(s, r, full), rest, Left(s, r, full, uploaded));
      events := first + rest;
    }
  }

  // ---------------------------------------------------------------- two records of one node

  /** A pending-only call that drops the record of `r` loses the work of `r` if and only if the
      retained archive is not what its worktree saves, and that was not delivered before. */
  lemma PendingCallLosesWorkIff(s: State, r: Runner)
    requires r in s.records && r in s.workspaces && s.records[r] in s.pending && s.records[r] in s.archives
    ensures var n := s.records[r];
            var saved := Save(s.owners, s.workspaces[r], n);
            var s' := Preserve(s, r, false, true).s;
            && r !in s'.records
            && (Delivery(n, saved) !in s'.received <==> saved != s.archives[n] && Delivery(n, saved) !in s.received)
  {
  }

  /** Two runners of a worker hold one node: `r` still works on it, `q` is stopped. A failed upload
      of `q` leaves the marker, and the next pending-only call takes the record of `r` for it:
      it is dropped, and with it the worktree of `r`, although nothing of `r` was uploaded. */
  lemma SecondRecordLosesWork(s: State, r: Runner, q: Runner) returns (events: seq<Event>)
    requires Sound(s) && Free(s, r) && r in s.records && q in s.records && q != r
    requires s.records[q] == s.records[r] && q in s.stopped && q in s.workspaces
    requires r !in s.transfers && q !in s.transfers
    requires var n := s.records[r];
             && Delivery(n, Save(s.owners, s.workspaces[r], n)) !in s.received
             && Save(s.owners, s.workspaces[r], n) != Save(s.owners, s.workspaces[q], n)
    ensures IsRun(s, events)
    ensures var s' := After(s, events); var n := s.records[r];
            && r !in s'.records && r !in s'.workspaces
            && Delivery(n, Save(s.owners, s.workspaces[r], n)) !in s'.received
  {
    assert RunnerFits(s, q);
    var s1 := Left(s, q, true, false);
    var first := PreserveIsRun(s, q, true, false);
    var s2 := Left(s1, r, false, true);
    var second := PreserveIsRun(s1, r, false, true);
    RunsChain(s, first, s1, second, s2);
    Extend(s, first + second, s2, Acts(r, CleanUp));
    events := first + second + [Acts(r, CleanUp)];
  }

  // ---------------------------------------------------------------- all pending handoffs

  /** The pending-only calls for the records in turn, until one raises; `reached` are the runners
      whose upload succeeds. */
  function PreserveEach(s: State, order: seq<Runner>, reached: set<Runner>): Outcome {
    if order == [] then Outcome(s, true)
    else
      var before := PreserveEach(s, order[..|order| - 1], reached);
      var r := order[|order| - 1];
      if before.ok then Preserve(before.s, r, false, r in reached) else before
  }

  /** preserve_pending_runners: a marker that is left has no record and needs a review. */
  function PreservePending(s: State, order: seq<Runner>, reached: set<Runner>): Outcome {
    var o := PreserveEach(s, order, reached);
    Outcome(o.s, o.ok && o.s.pending == {})
  }

  /** Every marker has an archive and the record of a runner. */
  ghost predicate Recoverable(s: State) {
    forall n :: Marked(s, n) ==> n in s.archives && exists r :: r in s.records && s.records[r] == n
  }

  lemma SoundIsRecoverable(s: State)
    requires Sound(s)
    ensures Recoverable(s)
  {
    forall n | Marked(s, n) ensures n in s.archives && exists r :: r in s.records && s.records[r] == n {
      assert Answered(s, n);
      var r :| Answers(s, r, n);
      assert r in s.records;
    }
  }

  /** After the calls for some records: archives and worktrees are as before, every marker that
      is gone was delivered, and only records of marked nodes are gone. */
  ghost predicate Progress(s: State, now: State) {
    && now.archives == s.archives && now.workspaces == s.workspaces && now.pending <= s.pending
    && (forall n :: n in s.pending && n !in now.pending ==>
         n in s.archives && Delivery(n, s.archives[n]) in now.received)
    && (forall r :: r in now.records ==> r in s.records && now.records[r] == s.records[r])
    && (forall r :: r in s.records && r !in now.records ==> s.records[r] in s.pending && s.records[r] !in now.pending)
  }

  lemma OneCallProgresses(s: State, now: State, r: Runner, uploaded: bool)
    requires Progress(s, now)
    ensures Progress(s, Preserve(now, r, false, uploaded).s)
  {
  }

  lemma {:induction false} CallsProgress(s: State, order: seq<Runner>, reached: set<Runner>)
    ensures Progress(s, PreserveEach(s, order, reached).s)
  {
    if order != [] {
      CallsProgress(s, order[..|order| - 1], reached);
      OneCallProgresses(s, PreserveEach(s, order[..|order| - 1], reached).s, order[|order| - 1],
                        order[|order| - 1] in reached);
    }
  }

  ghost predicate NoneMarked(s: State, now: State, order: seq<Runner>) {
    forall r :: r in order && r in s.records ==> s.records[r] !in now.pending
  }

  lemma {:induction false} CalledAreUnmarked(s: State, order: seq<Runner>, reached: set<Runner>)
    requires PreserveEach(s, order, reached).ok
    ensures NoneMarked(s, PreserveEach(s, order, reached).s, order)
  {
    if order != [] {
      var front, r := order[..|order| - 1], order[|order| - 1];
      assert order == front + [r];
      CalledAreUnmarked(s, front, reached);
      CallsProgress(s, front, reached);
    }
  }

  /** The calls raise only for a runner whose node is marked and cannot be uploaded; its marker,
      its archive and its record stay. */
  lemma {:induction false} FailureKeepsCheckpoint(s: State, order: seq<Runner>, reached: set<Runner>)
    returns (r: Runner)
    requires Recoverable(s) && !PreserveEach(s, order, reached).ok
    ensures r in order && r !in reached
    ensures var now := PreserveEach(s, order, reached).s;
            r in now.records && now.records[r] in now.pending && now.records[r] in now.archives
  {
    var front := order[..|order| - 1];
    CallsProgress(s, front, reached);
    if PreserveEach(s, front, reached).ok {
      r := order[|order| - 1];
      var now := PreserveEach(s, front, reached).s;
      assert r in now.records && Marked(s, now.records[r]);
    } else {
      r := FailureKeepsCheckpoint(s, front, reached);
    }
  }

  /** When every upload succeeds, the call returns: no marker ever needs a review. All marked
      checkpoints are delivered, and no record of an unmarked node is touched. */
  lemma PendingAreDelivered(s: State, order: seq<Runner>, reached: set<Runner>)
    requires Recoverable(s) && (forall r :: r in s.records ==> r in order) && (forall r :: r in order ==> r in reached)
    ensures var o := PreservePending(s, order, reached);
            && o.ok && o.s.pending == {} && Progress(s, o.s)
            && (forall n :: n in s.pending ==> Delivery(n, s.archives[n]) in o.s.received)
  {
    var o := PreserveEach(s, order, reached);
    if !o.ok {
      var r := FailureKeepsCheckpoint(s, order, reached);
      assert false;
    }
    CallsProgress(s, order, reached);
    CalledAreUnmarked(s, order, reached);
    forall n | Marked(s, n) ensures n !in o.s.pending {
      var r :| r in s.records && s.records[r] == n;
    }
  }

  /** With one record a node, the call returns exactly if every marked checkpoint can be
      uploaded. */
  lemma PendingReturnsIffReached(s: State, order: seq<Runner>, reached: set<Runner>)
    requires Recoverable(s) && Enumerates(order, s.records.Keys)
    requires forall r :: r in s.records ==> NoOtherRecord(s, r, s.records[r])
    ensures PreservePending(s, order, reached).ok <==>
              forall r :: r in s.records && s.records[r] in s.pending ==> r in reached
  {
    var o := PreserveEach(s, order, reached);
    CallsProgress(s, order, reached);
    if o.ok {
      CalledAreUnmarked(s, order, reached);
      forall r | r in s.records && s.records[r] in s.pending ensures r in reached {
        DroppedWasReached(s, order, reached, r);
      }
      forall n | Marked(s, n) ensures n !in o.s.pending {
        var r :| r in s.records && s.records[r] == n;
      }
    } else {
      var r := FailureKeepsCheckpoint(s, order, reached);
    }
  }

  lemma {:induction false} DroppedWasReached(s: State, order: seq<Runner>, reached: set<Runner>, r: Runner)
    requires PreserveEach(s, order, reached).ok && r in s.records && NoOtherRecord(s, r, s.records[r])
    requires s.records[r] in s.pending && s.records[r] !in PreserveEach(s, order, reached).s.pending
    ensures r in reached
  {
    if order != [] {
      var front := order[..|order| - 1];
      CallsProgress(s, front, reached);
      if s.records[r] !in PreserveEach(s, front, reached).s.pending { DroppedWasReached(s, front, reached, r); }
    }
  }

  /** A marker goes only with the record of a runner whose upload succeeded. */
  lemma {:induction false} GoneWithRecord(s: State, order: seq<Runner>, reached: set<Runner>, n: Node)
    requires n in s.pending && n !in PreserveEach(s, order, reached).s.pending
    ensures n in s.archives && exists r :: r in order && r in s.records && s.records[r] == n && r in reached
  {
    if order != [] {
      var front, last := order[..|order| - 1], order[|order| - 1];
      assert order == front + [last];
      CallsProgress(s, front, reached);
      if n !in PreserveEach(s, front, reached).s.pending {
        GoneWithRecord(s, front, reached, n);
        var r :| r in front && r in s.records && s.records[r] == n && r in reached;
        assert r in order;
      } else {
        assert last in s.records && s.records[last] == n;
      }
    }
  }

  /** From any files, sound or not: with one record a node, the calls for all records return if and
      only if every marker has an archive and the record of a runner whose upload succeeds; a marker
      without a record is left for a review. */
  lemma PendingReturnsExactly(s: State, order: seq<Runner>, reached: set<Runner>)
    requires Enumerates(order, s.records.Keys)
    requires forall r :: r in s.records ==> NoOtherRecord(s, r, s.records[r])
    ensures PreservePending(s, order, reached).ok <==>
              forall n :: n in s.pending ==>
                n in s.archives && exists r :: r in s.records && s.records[r] == n && r in reached
    ensures PreservePending(s, order, reached).ok ==> PreservePending(s, order, reached).s.pending == {}
  {
    if PreservePending(s, order, reached).ok {
      forall n | n in s.pending
        ensures n in s.archives && exists r :: r in s.records && s.records[r] == n && r in reached
      {
        GoneWithRecord(s, order, reached, n);
      }
    } else if forall n :: n in s.pending ==>
                n in s.archives && exists r :: r in s.records && s.records[r] == n && r in reached {
      AllReachedReturns(s, order, reached);
    }
  }

  lemma AllReachedReturns(s: State, order: seq<Runner>, reached: set<Runner>)
    requires Enumerates(order, s.records.Keys)
    requires forall r :: r in s.records ==> NoOtherRecord(s, r, s.records[r])
    requires forall n :: n in s.pending ==>
               n in s.archives && exists r :: r in s.records && s.records[r] == n && r in reached
    ensures PreservePending(s, order, reached).ok
  {
    forall r | r in s.records && s.records[r] in s.pending ensures r in reached {
      var q :| q in s.records && s.records[q] == s.records[r] && q in reached;
      assert NoOtherRecord(s, r, s.records[r]);
    }
    assert Recoverable(s);
    PendingReturnsIffReached(s, order, reached);
  }

  // ---------------------------------------------------------------- restoring

  /** restore_remote_node: a marked archive is used as it is, without asking the headnode;
      `reached` says whether the headnode answers, with a copy or with 404. */
  function RestoreCall(s: State, r: Runner, n: Node, reached: bool): Outcome
    requires r in s.workspaces
  {
    var marked := n in s.archives && n in s.pending;
    if !marked && !reached then Outcome(s, false)
    else
      var s' := if marked then s else Download(s, n);
      if n !in s'.archives then Outcome(s', true)
      else if !Acceptable(s.owners, n, s'.archives[n]) then Outcome(s', false)
      else Outcome(RestoreInto(s', r, n), true)
  }

  /** A restore that returns is a run of the protocol. */
  lemma RestoreIsRun(s: State, r: Runner, n: Node, reached: bool) returns (events: seq<Event>)
    requires Free(s, r) && RestoreCall(s, r, n, reached).ok
    ensures Leads(s, events, RestoreCall(s, r, n, reached).s)
  {
    if n in s.archives && n in s.pending {
      events := [Acts(r, RestoreLocal(n))];
    } else {
      events := DownloadIsRun(s, r, n);
    }
  }

  lemma DownloadIsRun(s: State, r: Runner, n: Node) returns (events: seq<Event>)
    requires Free(s, r) && RestoreCall(s, r, n, true).ok && (n !in s.pending || n !in s.archives)
    ensures Leads(s, events, RestoreCall(s, r, n, true).s)
  {
    var s1 := Step(s, Acts(r, BeginRestore(n)));
    Extend(s, [Acts(r, BeginRestore(n))], s1, Acts(r, EndRestore));
    events := [Acts(r, BeginRestore(n))] + [Acts(r, EndRestore)];
    assert s1.restoring - {r} == s.restoring;
  }

  /** The checkpoint that a restore is to use: the retained archive if it is marked, otherwise the
      headnode's copy, otherwise whatever archive the worker has. */
  function Available(s: State, n: Node): Option<Checkpoint> {
    if n in s.pending && n in s.archives then Some(s.archives[n])
    else if n in s.headnode then Some(s.headnode[n])
    else Lookup(s.archives, n)
  }

  /** A restore returns if and only if the archive is marked or the headnode answered, and the
      checkpoint to use, if there is one, holds only files that the node declares. If it raises, no
      worktree is touched. */
  lemma RestoreReturnsExactly(s: State, r: Runner, n: Node, reached: bool)
    requires r in s.workspaces
    ensures RestoreCall(s, r, n, reached).ok <==>
            && ((n in s.pending && n in s.archives) || reached)
            && (Available(s, n).Some? ==>
                  forall p :: p in Available(s, n).value.files ==> p in s.owners && s.owners[p] == n)
    ensures !RestoreCall(s, r, n, reached).ok ==> RestoreCall(s, r, n, reached).s.workspaces == s.workspaces
  {
  }

  /** Every file of the checkpoint with its content, and the node's entry; all else as before. */
  ghost predicate Holds(was: Workspace, now: Workspace, n: Node, c: Option<Checkpoint>) {
    match c
    case None => now == was
    case Some(c) =>
      && (forall p :: Lookup(now.files, p) == if p in c.files then Some(c.files[p]) else Lookup(was.files, p))
      && (forall m :: Lookup(now.lock, m) == if m == n && c.entry.Some? then c.entry else Lookup(was.lock, m))
  }

  lemma RestoreHolds(ws: Workspace, n: Node, c: Checkpoint)
    ensures Holds(ws, Restore(ws, n, c), n, Some(c))
  {
  }

  /** What a restore that returns has done to the runner's worktree: it holds the checkpoint. */
  lemma RestoredHolds(s: State, r: Runner, n: Node, reached: bool)
    requires r in s.workspaces && RestoreCall(s, r, n, reached).ok
    ensures var s' := RestoreCall(s, r, n, reached).s;
            r in s'.workspaces && Holds(s.workspaces[r], s'.workspaces[r], n, Available(s, n))
  {
    if Available(s, n).Some? { RestoreHolds(s.workspaces[r], n, Available(s, n).value); }
  }

  /** And to the rest: the checkpoint is the worker's archive now, and nothing else has changed. */
  lemma RestoreTouchesNoOther(s: State, r: Runner, n: Node, reached: bool)
    requires r in s.workspaces && RestoreCall(s, r, n, reached).ok
    ensures var s' := RestoreCall(s, r, n, reached).s;
            && (forall q :: q != r ==> Lookup(s'.workspaces, q) == Lookup(s.workspaces, q))
            && Lookup(s'.archives, n) == Available(s, n)
            && (forall m :: m != n ==> Lookup(s'.archives, m) == Lookup(s.archives, m))
            && s' == s.(workspaces := s'.workspaces, archives := s'.archives)
  {
  }

  /** When a worker hands a node from runner `q` to runner `r`: the restore of `r` returns if and
      only if the upload of `q` failed or the headnode answers. Then `r` saves exactly what `q`
      saved if and only if its fresh worktree, made from the start commit, tracks no file and no
      dvc.lock entry of the node that `q` had lost. */
  lemma NextRunnerResumes(s: State, q: Runner, r: Runner, uploaded: bool, reached: bool)
    requires q in s.records && q in s.workspaces && r in s.workspaces && r != q
    ensures var n := s.records[q];
            var (was, tracked) := (s.workspaces[q], s.workspaces[r]);
            var restored := RestoreCall(Preserve(s, q, true, uploaded).s, r, n, reached);
            && (restored.ok <==> reached || !uploaded) && r in restored.s.workspaces
            && (if !restored.ok then restored.s.workspaces[r] == tracked
                else (Save(s.owners, restored.s.workspaces[r], n) == Save(s.owners, was, n) <==>
                      && (forall p :: p in tracked.files && p in s.owners && s.owners[p] == n ==> p in was.files)
                      && (n in tracked.lock ==> n in was.lock)))
  {
    var n := s.records[q];
    var c := Save(s.owners, s.workspaces[q], n);
    SavedIsAcceptable(s.owners, s.workspaces[q], n);
    RestoreThenSave(s.owners, s.workspaces[r], n, c);
  }
}
