/** The worker's files and the headnode as an object that src/runner/local_workspace.py updates in
    place, one call at a time. */
module HandoffStore {
  import opened Prelude
  import opened Handoff
  import opened HandoffCalls

  /** A call that raises ends the loop. */
  lemma {:induction false} StaysRaised(s: State, order: seq<Runner>, i: nat, reached: set<Runner>)
    requires i <= |order| && !PreserveEach(s, order[..i], reached).ok
    ensures PreserveEach(s, order, reached) == PreserveEach(s, order[..i], reached)
    decreases |order| - i
  {
    if i == |order| {
      assert order[..i] == order;
    } else {
      assert order[..i + 1][..i] == order[..i];
      StaysRaised(s, order, i + 1, reached);
    }
  }

  class WorkerDisk {
    const owners: Owners
    var archives: map<Node, Checkpoint>
    var pending: set<Node>
    var records: map<Runner, Node>
    var workspaces: map<Runner, Workspace>
    var headnode: map<Node, Checkpoint>
    ghost var received: set<Delivery>

    /** The files as a state of the protocol in which no call is under way. */
    ghost function View(): State
      reads this
    {
      State(owners, archives, pending, records, workspaces, headnode, received, map[], map[], {})
    }

    constructor (owners: Owners)
      ensures Initial(View()) && this.owners == owners
    {
      this.owners := owners;
      archives, pending, records, workspaces, headnode, received := map[], {}, map[], map[], map[], {};
    }

    method PreserveRunnerRecord(r: Runner, pendingOnly: bool, uploaded: bool) returns (ok: bool)
      modifies this
      ensures Outcome(View(), ok) == Preserve(old(View()), r, !pendingOnly, uploaded)
    {
      if r !in records { return true; }
      var n := records[r];
      if pendingOnly && n !in pending { return true; }
      if !pendingOnly && r in workspaces {
        archives := archives[n := Save(owners, workspaces[r], n)];
        pending := pending + {n};
      }
      if n !in archives || !uploaded { return false; }
      headnode := headnode[n := archives[n]];
      received := received + {Delivery(n, archives[n])};
      pending := pending - {n};
      records := records - {r};
      ok := true;
    }

    method PreservePendingRunners(order: seq<Runner>, reached: set<Runner>) returns (ok: bool)
      modifies this
      ensures Outcome(View(), ok) == PreservePending(old(View()), order, reached)
    {
      ghost var before := View();
      var i := 0;
      while i < |order|
        invariant i <= |order|
        invariant Outcome(View(), true) == PreserveEach(before, order[..i], reached)
      {
        assert order[..i + 1][..i] == order[..i];
        ok := PreserveRunnerRecord(order[i], true, order[i] in reached);
        if !ok {
          StaysRaised(before, order, i + 1, reached);
          return;
        }
        i := i + 1;
      }
      assert order[..i] == order;
      ok := pending == {};
    }

    method RestoreRemoteNode(r: Runner, n: Node, reached: bool) returns (ok: bool)
      requires r in workspaces
      modifies this
      ensures Outcome(View(), ok) == RestoreCall(old(View()), r, n, reached)
    {
      if !(n in archives && n in pending) {
        if !reached { return false; }
        if n in headnode { archives := archives[n := headnode[n]]; }
      }
      if n in archives {
        if !Acceptable(owners, n, archives[n]) { return false; }
        workspaces := workspaces[r := Restore(workspaces[r], n, archives[n])];
      }
      ok := true;
    }
  }
}
