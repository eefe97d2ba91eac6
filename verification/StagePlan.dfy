/** The stage plan as a whole and its filtering after the fact (src/planner/stage_plan.py,
    compute_stage_plan and filter_plan_to_stages). */
module StagePlan {
  import opened Prelude
  import opened StageGraph
  import opened Staleness

  datatype PlanNode = PlanNode(name: Name, deps: seq<Name>, stale: bool, reason: Option<Reason>, priority: nat)

  /** What a plan node says about its stage. */
  ghost predicate NodeOk(g: Stages, v: Verdicts, n: PlanNode) {
    && n.name in g && n.name in v
    && n.deps == g[n.name].ups
    && n.reason == v[n.name] && (n.stale <==> n.reason.Some?)
    && IsPriority(g, v, n.name, n.priority)
  }

  /** One node per stage in topological order, each with the stage's dependencies, its final
      staleness and reason, and its priority. */
  ghost predicate PlanOf(g: Stages, v: Verdicts, topo: seq<Name>, nodes: seq<PlanNode>) {
    && Consistent(g, v)
    && |nodes| == |topo|
    && forall i :: 0 <= i < |nodes| ==> nodes[i].name == topo[i] && NodeOk(g, v, nodes[i])
  }

  /** What a plan tells its reader, without the verdicts that led to it: a node is stale exactly if
      its stage is not frozen and staleness reaches it. */
  ghost predicate PlanMeans(g: Stages, topo: seq<Name>, nodes: seq<PlanNode>) {
    && |nodes| == |topo|
    && forall i :: 0 <= i < |nodes| ==>
         && nodes[i].name == topo[i] && nodes[i].name in g && nodes[i].deps == g[nodes[i].name].ups
         && (nodes[i].stale <==> !g[nodes[i].name].frozen && ReachedByStale(g, nodes[i].name))
  }

  lemma PlanMeansReach(g: Stages, v: Verdicts, topo: seq<Name>, nodes: seq<PlanNode>)
    requires PlanOf(g, v, topo, nodes) && TopologicalOrder(g, topo)
    ensures PlanMeans(g, topo, nodes)
  {
    forall i | 0 <= i < |nodes|
      ensures nodes[i].stale <==> !g[nodes[i].name].frozen && ReachedByStale(g, nodes[i].name)
    {
      StaleIffReached(g, topo, v, nodes[i].name);
    }
  }

  /** Steps 2 to 4 of compute_stage_plan on the selected stages. */
  method AssemblePlan(g: Stages, downs: map<Name, seq<Name>>, topo: seq<Name>)
    returns (nodes: seq<PlanNode>, ghost v: Verdicts)
    requires Inverse(g, downs) && TopologicalOrder(g, topo)
    ensures PlanOf(g, v, topo, nodes)
    ensures PlanMeans(g, topo, nodes)
  {
    var verdicts := PropagateStaleness(g, topo);
    v := verdicts;
    nodes := AssembleNodes(g, verdicts, downs, topo);
    PlanMeansReach(g, verdicts, topo, nodes);
  }

  method AssembleNodes(g: Stages, v: Verdicts, downs: map<Name, seq<Name>>, topo: seq<Name>)
    returns (nodes: seq<PlanNode>)
    requires Inverse(g, downs) && TopologicalOrder(g, topo) && Consistent(g, v)
    ensures NodesUpTo(g, v, topo, |topo|, nodes)
  {
    var table := new PriorityTable(g, v, downs);
    nodes := [];
    for i := 0 to |topo|
      invariant fresh(table) && table.Valid() && table.g == g && table.v == v
      invariant NodesUpTo(g, v, topo, i, nodes)
    {
      assert topo[i] in topo;
      var p := table.GetPriority(topo[i], topo);
      nodes := nodes + [PlanNode(topo[i], g[topo[i]].ups, v[topo[i]].Some?, v[topo[i]], p)];
    }
  }

  /** The nodes of the first `i` stages. */
  ghost predicate NodesUpTo(g: Stages, v: Verdicts, topo: seq<Name>, i: nat, nodes: seq<PlanNode>)
    requires i <= |topo|
  {
    |nodes| == i && forall j :: 0 <= j < i ==> nodes[j].name == topo[j] && NodeOk(g, v, nodes[j])
  }

  datatype PlanResult = Plan(nodes: seq<PlanNode>) | UnknownTarget(target: string)

  function RestrictDowns(downs: map<Name, seq<Name>>, s: set<Name>): map<Name, seq<Name>> {
    map n | n in downs && n in s :: KeepIn(downs[n], s)
  }

  /** The stages a plan for these targets covers: all of them, or the targets' closure. */
  function PlannedStages(g: Stages, targets: seq<string>): Stages {
    if targets == [] then g else Restrict(g, Closure(g, TargetSet(g.Keys, targets)))
  }

  ghost predicate AllKnown(g: Stages, targets: seq<string>) {
    forall t :: t in targets ==> Matches(g.Keys, t) != {}
  }

  /** compute_stage_plan: resolve the targets, restrict to their closure, plan what is left.
      `topo` is the topological order the graph library yields for the remaining stages. */
  method ComputeStagePlan(g: Stages, downs: map<Name, seq<Name>>, targets: seq<string>, topo: seq<Name>)
    returns (r: PlanResult, ghost v: Verdicts)
    requires Closed(g) && Inverse(g, downs)
    requires AllKnown(g, targets) ==> TopologicalOrder(PlannedStages(g, targets), topo)
    ensures r.Plan? <==> AllKnown(g, targets)
    ensures r.UnknownTarget? ==> r.target in targets && Matches(g.Keys, r.target) == {}
    ensures r.Plan? ==> PlanOf(PlannedStages(g, targets), v, topo, r.nodes)
    ensures r.Plan? ==> PlanMeans(PlannedStages(g, targets), topo, r.nodes)
  {
    v := map[];
    var kept, keptDowns := g, downs;
    if targets != [] {
      var resolution := ResolveTargets(g.Keys, targets);
      if resolution.UnknownStage? {
        return UnknownTarget(resolution.target), v;
      }
      var closure := Closure(g, resolution.names);
      kept, keptDowns := Restrict(g, closure), RestrictDowns(downs, closure);
    }
    var nodes;
    nodes, v := AssemblePlan(kept, keptDowns, topo);
    return Plan(nodes), v;
  }

  // ---------------------------------------------------------------- filtering a finished plan

  /** The dependency graph a plan carries. */
  function PlanStages(nodes: seq<PlanNode>): Stages {
    if nodes == [] then map[]
    else
      var last := nodes[|nodes| - 1];
      PlanStages(nodes[..|nodes| - 1])[last.name := Stage(last.deps, false, false, None)]
  }

  /** The stages the filter selects, from the dependency graph that the plan carries. */
  function FilterSelection(nodes: seq<PlanNode>, targets: seq<string>): set<Name> {
    var g := PlanStages(nodes);
    Closure(g, TargetSet(g.Keys, targets))
  }

  function Skip(n: PlanNode): PlanNode {
    n.(stale := false, reason := Some(SkippedByFilter), priority := 0)
  }

  function FilterNodes(nodes: seq<PlanNode>, kept: set<Name>, markSkipped: bool): seq<PlanNode> {
    if nodes == [] then []
    else
      var last := nodes[|nodes| - 1];
      FilterNodes(nodes[..|nodes| - 1], kept, markSkipped)
      + (if last.name in kept then [last] else if markSkipped then [Skip(last)] else [])
  }

  /** The nodes in their order, the selected ones as they were and every other one marked: not
      stale, without priority, and with the filter as its reason. */
  ghost predicate MarksOthers(before: seq<PlanNode>, kept: set<Name>, after: seq<PlanNode>) {
    && |after| == |before|
    && forall i :: 0 <= i < |after| ==>
         && after[i].name == before[i].name && after[i].deps == before[i].deps
         && (after[i].stale <==> before[i].stale && before[i].name in kept)
         && (if before[i].name in kept then after[i] == before[i]
             else after[i].reason == Some(SkippedByFilter) && after[i].priority == 0)
  }

  /** The nodes at the given positions, which are those of the selected ones, in their order. */
  ghost predicate KeepsAt(before: seq<PlanNode>, kept: set<Name>, after: seq<PlanNode>, at: seq<nat>) {
    && |at| == |after|
    && (forall i, j :: 0 <= i < j < |at| ==> at[i] < at[j])
    && (forall i :: 0 <= i < |at| ==> at[i] < |before| && after[i] == before[at[i]])
    && (forall k :: 0 <= k < |before| ==> (before[k].name in kept <==> k in at))
  }

  ghost predicate DropsOthers(before: seq<PlanNode>, kept: set<Name>, after: seq<PlanNode>) {
    exists at :: KeepsAt(before, kept, after, at)
  }

  lemma {:induction false} FilterMarks(nodes: seq<PlanNode>, kept: set<Name>)
    ensures MarksOthers(nodes, kept, FilterNodes(nodes, kept, true))
  {
    if nodes != [] { FilterMarks(nodes[..|nodes| - 1], kept); }
  }

  lemma {:induction false} FilterDrops(nodes: seq<PlanNode>, kept: set<Name>)
    ensures DropsOthers(nodes, kept, FilterNodes(nodes, kept, false))
  {
    if nodes == [] {
      var none: seq<nat> := [];
      assert KeepsAt(nodes, kept, FilterNodes(nodes, kept, false), none);
    } else {
      FilterDrops(nodes[..|nodes| - 1], kept);
      DropOneMore(nodes, kept, FilterNodes(nodes[..|nodes| - 1], kept, false));
    }
  }

  lemma KeepLast(nodes: seq<PlanNode>, kept: set<Name>, after: seq<PlanNode>, at: seq<nat>, last: nat)
    requires |nodes| == last + 1 && nodes[last].name in kept && KeepsAt(nodes[..last], kept, after, at)
    ensures KeepsAt(nodes, kept, after + [nodes[last]], at + [last])
  {
    forall i | 0 <= i < |at| ensures at[i] < last && (after + [nodes[last]])[i] == nodes[at[i]] {
    }
    forall k | 0 <= k < |nodes| ensures nodes[k].name in kept <==> k in at + [last] {
      if k < last { assert nodes[..last][k] == nodes[k]; }
    }
  }

  lemma DropLast(nodes: seq<PlanNode>, kept: set<Name>, after: seq<PlanNode>, at: seq<nat>, last: nat)
    requires |nodes| == last + 1 && nodes[last].name !in kept && KeepsAt(nodes[..last], kept, after, at)
    ensures KeepsAt(nodes, kept, after, at)
  {
    forall k | 0 <= k < |nodes| ensures nodes[k].name in kept <==> k in at {
      if k < last { assert nodes[..last][k] == nodes[k]; }
    }
  }

  lemma DropOneMore(nodes: seq<PlanNode>, kept: set<Name>, after: seq<PlanNode>)
    requires nodes != [] && DropsOthers(nodes[..|nodes| - 1], kept, after)
    ensures var last := nodes[|nodes| - 1]; DropsOthers(nodes, kept, after + if last.name in kept then [last] else [])
  {
    var last: nat := |nodes| - 1;
    var at :| KeepsAt(nodes[..last], kept, after, at);
    if nodes[last].name in kept {
      KeepLast(nodes, kept, after, at, last);
    } else {
      DropLast(nodes, kept, after, at, last);
      assert after + [] == after;
    }
  }

  class PlanFile {
    var nodes: seq<PlanNode>

    constructor (nodes: seq<PlanNode>)
      ensures this.nodes == nodes
    {
      this.nodes := nodes;
    }

    /** filter_plan_to_stages: overwrites the node list unless a target is unknown. */
    method FilterToStages(targets: seq<string>, markSkipped: bool) returns (unknown: Option<string>)
      modifies this
      ensures targets == [] ==> unknown.None? && nodes == old(nodes)
      ensures unknown.None? <==> AllKnown(PlanStages(old(nodes)), targets)
      ensures unknown.Some? ==> nodes == old(nodes) && unknown.value in targets
      ensures unknown.Some? ==> Matches(PlanStages(old(nodes)).Keys, unknown.value) == {}
      ensures unknown.None? && targets != [] ==>
                nodes == FilterNodes(old(nodes), FilterSelection(old(nodes), targets), markSkipped)
      ensures unknown.None? && targets != [] && markSkipped ==>
                MarksOthers(old(nodes), FilterSelection(old(nodes), targets), nodes)
      ensures unknown.None? && targets != [] && !markSkipped ==>
                DropsOthers(old(nodes), FilterSelection(old(nodes), targets), nodes)
    {
      if targets == [] {
        return None;
      }
      var g := PlanStages(nodes);
      var resolution := ResolveTargets(g.Keys, targets);
      if resolution.UnknownStage? {
        return Some(resolution.target);
      }
      var closure := Closure(g, resolution.names);
      FilterMarks(nodes, closure);
      FilterDrops(nodes, closure);
      nodes := Filtered(closure, markSkipped);
      return None;
    }

    /** The node list the filter writes. */
    method Filtered(kept: set<Name>, markSkipped: bool) returns (filtered: seq<PlanNode>)
      ensures filtered == FilterNodes(nodes, kept, markSkipped)
    {
      filtered := [];
      for i := 0 to |nodes|
        invariant filtered == FilterNodes(nodes[..i], kept, markSkipped)
      {
        assert nodes[..i + 1][..i] == nodes[..i];
        var n := nodes[i];
        if n.name in kept {
          filtered := filtered + [n];
        } else if markSkipped {
          filtered := filtered + [n.(stale := false, reason := Some(SkippedByFilter), priority := 0)];
        }
      }
      assert nodes[..|nodes|] == nodes;
    }
  }

  // ---------------------------------------------------------------- filtering commutes with planning

  /** Same stage, dependencies, staleness and reason; the first priority is at most the second. */
  predicate Agrees(direct: PlanNode, filtered: PlanNode) {
    && direct.name == filtered.name && direct.deps == filtered.deps
    && direct.stale == filtered.stale && direct.reason == filtered.reason
    && direct.priority <= filtered.priority
  }

  /** The filtered plan has the node, with at least its priority. */
  predicate KeptBy(filtered: seq<PlanNode>, d: PlanNode) {
    exists f :: f in filtered && Agrees(d, f)
  }

  /** A node of the filtered plan is one of the direct plan's, or a node outside the selection
      that the filter marked as not stale. */
  ghost predicate ExplainedBy(direct: seq<PlanNode>, full: seq<PlanNode>, closure: set<Name>, markSkipped: bool,
                              f: PlanNode) {
    || (exists d :: d in direct && Agrees(d, f))
    || (markSkipped && f.name !in closure && exists m :: m in full && f == Skip(m))
  }

  /** Planning the closure directly and filtering the full plan say the same about every selected
      stage, except that the direct plan, which does not see stale stages further downstream,
      may give it a lower priority. */
  lemma SelectedNodeAgrees(g: Stages, topo: seq<Name>, v: Verdicts, s: set<Name>, v': Verdicts, full: PlanNode,
                           direct: PlanNode)
    requires Closed(g) && TopologicalOrder(g, topo) && Consistent(g, v)
    requires AncestorClosed(g, s) && Consistent(Restrict(g, s), v')
    requires NodeOk(g, v, full) && NodeOk(Restrict(g, s), v', direct) && full.name == direct.name
    ensures Agrees(direct, full)
  {
    var h := Restrict(g, s);
    RestrictKeepsStages(g, s);
    assert Closed(h);
    forall n | n in h ensures v[n] == v'[n] {
      VerdictsAgree(g, topo, v, h, v', n);
    }
    if direct.priority > 0 {
      var c :| StaleChain(h, v', c) && c != [] && c[0] == direct.name && |c| == direct.priority;
    }
  }

  lemma {:induction false} FilterMembers(nodes: seq<PlanNode>, kept: set<Name>, markSkipped: bool, n: PlanNode)
    ensures n in FilterNodes(nodes, kept, markSkipped) <==>
            || (n in nodes && n.name in kept)
            || (markSkipped && exists m :: m in nodes && m.name !in kept && n == Skip(m))
  {
    if nodes != [] {
      var front, last := nodes[..|nodes| - 1], nodes[|nodes| - 1];
      assert nodes == front + [last];
      FilterMembers(front, kept, markSkipped, n);
    }
  }

  lemma {:induction false} PlanStagesOf(g: Stages, nodes: seq<PlanNode>)
    requires forall n :: n in nodes ==> n.name in g && n.deps == g[n.name].ups
    ensures forall n :: n in PlanStages(nodes) ==> n in g && PlanStages(nodes)[n].ups == g[n].ups
    ensures forall n :: n in nodes ==> n.name in PlanStages(nodes)
  {
    if nodes != [] {
      var front, last := nodes[..|nodes| - 1], nodes[|nodes| - 1];
      assert nodes == front + [last];
      PlanStagesOf(g, front);
    }
  }

  lemma NodeForStage(g: Stages, v: Verdicts, topo: seq<Name>, nodes: seq<PlanNode>, n: Name) returns (node: PlanNode)
    requires TopologicalOrder(g, topo) && PlanOf(g, v, topo, nodes) && n in g
    ensures node in nodes && node.name == n && NodeOk(g, v, node)
  {
    node := nodes[Position(g, topo, n)];
  }

  lemma PlanNamesStages(g: Stages, v: Verdicts, topo: seq<Name>, nodes: seq<PlanNode>, node: PlanNode)
    requires TopologicalOrder(g, topo) && PlanOf(g, v, topo, nodes) && node in nodes
    ensures node.name in g && node.deps == g[node.name].ups
  {
    var i :| 0 <= i < |nodes| && nodes[i] == node;
    assert NodeOk(g, v, nodes[i]);
  }

  lemma PlanCovers(g: Stages, v: Verdicts, topo: seq<Name>, nodes: seq<PlanNode>)
    requires TopologicalOrder(g, topo) && PlanOf(g, v, topo, nodes)
    ensures forall n :: n in g <==> n in PlanStages(nodes)
    ensures forall n :: n in g ==> PlanStages(nodes)[n].ups == g[n].ups
  {
    forall node | node in nodes ensures node.name in g && node.deps == g[node.name].ups {
      PlanNamesStages(g, v, topo, nodes, node);
    }
    PlanStagesOf(g, nodes);
    forall n | n in g ensures n in PlanStages(nodes) {
      var node := NodeForStage(g, v, topo, nodes, n);
    }
  }

  /** Two graphs with the same dependencies have the same closures. */
  lemma SameClosure(g: Stages, h: Stages, s: set<Name>)
    requires h.Keys == g.Keys && (forall n :: n in g ==> h[n].ups == g[n].ups) && s <= g.Keys
    ensures Closure(h, s) == Closure(g, s)
  {
    ClosureIsLeast(g, s);
    ClosureIsLeast(h, s);
    assert AncestorClosed(g, Closure(h, s)) && AncestorClosed(h, Closure(g, s));
  }

  lemma DirectNodeIsKept(g: Stages, closure: set<Name>, markSkipped: bool, topo: seq<Name>, v: Verdicts,
                         full: seq<PlanNode>, v': Verdicts, d: PlanNode)
    requires Closed(g) && AncestorClosed(g, closure)
    requires TopologicalOrder(g, topo) && PlanOf(g, v, topo, full)
    requires Consistent(Restrict(g, closure), v') && NodeOk(Restrict(g, closure), v', d)
    ensures KeptBy(FilterNodes(full, closure, markSkipped), d)
  {
    var f := NodeForStage(g, v, topo, full, d.name);
    SelectedNodeAgrees(g, topo, v, closure, v', f, d);
    FilterMembers(full, closure, markSkipped, f);
  }

  lemma KeptNodeIsDirect(g: Stages, closure: set<Name>, topo: seq<Name>, v: Verdicts, full: seq<PlanNode>,
                         topo': seq<Name>, v': Verdicts, direct: seq<PlanNode>, f: PlanNode)
    requires Closed(g) && AncestorClosed(g, closure)
    requires TopologicalOrder(g, topo) && PlanOf(g, v, topo, full)
    requires TopologicalOrder(Restrict(g, closure), topo') && PlanOf(Restrict(g, closure), v', topo', direct)
    requires f in full && f.name in closure
    ensures exists d :: d in direct && Agrees(d, f)
  {
    var i :| 0 <= i < |full| && full[i] == f;
    assert NodeOk(g, v, f);
    var d := NodeForStage(Restrict(g, closure), v', topo', direct, f.name);
    SelectedNodeAgrees(g, topo, v, closure, v', f, d);
  }

  lemma FilteredPlanMatches(g: Stages, closure: set<Name>, markSkipped: bool,
                            topo: seq<Name>, v: Verdicts, full: seq<PlanNode>,
                            topo': seq<Name>, v': Verdicts, direct: seq<PlanNode>)
    requires Closed(g) && AncestorClosed(g, closure)
    requires TopologicalOrder(g, topo) && PlanOf(g, v, topo, full)
    requires TopologicalOrder(Restrict(g, closure), topo') && PlanOf(Restrict(g, closure), v', topo', direct)
    ensures forall d :: d in direct ==> KeptBy(FilterNodes(full, closure, markSkipped), d)
    ensures forall f :: f in FilterNodes(full, closure, markSkipped) ==>
              ExplainedBy(direct, full, closure, markSkipped, f)
  {
    forall d | d in direct ensures KeptBy(FilterNodes(full, closure, markSkipped), d) {
      var i :| 0 <= i < |direct| && direct[i] == d;
      assert NodeOk(Restrict(g, closure), v', direct[i]);
      DirectNodeIsKept(g, closure, markSkipped, topo, v, full, v', d);
    }
    forall f | f in FilterNodes(full, closure, markSkipped)
      ensures ExplainedBy(direct, full, closure, markSkipped, f)
    {
      FilterMembers(full, closure, markSkipped, f);
      if f in full && f.name in closure {
        KeptNodeIsDirect(g, closure, topo, v, full, topo', v', direct, f);
      }
    }
  }

  /** The filter accepts the same targets as the planner and selects the same stages. */
  lemma SameSelection(g: Stages, targets: seq<string>, topo: seq<Name>, v: Verdicts, full: seq<PlanNode>)
    requires TopologicalOrder(g, topo) && PlanOf(g, v, topo, full)
    ensures AllKnown(PlanStages(full), targets) <==> AllKnown(g, targets)
    ensures FilterSelection(full, targets) == Closure(g, TargetSet(g.Keys, targets))
  {
    PlanCovers(g, v, topo, full);
    assert PlanStages(full).Keys == g.Keys;
    SameClosure(g, PlanStages(full), TargetSet(g.Keys, targets));
  }

  /** Restricting to the targets before planning, and filtering the full plan afterwards, select
      the same stages with the same dependencies, staleness and reasons; priorities of the first
      are at most those of the second, and what the filter leaves out is marked not stale. */
  lemma FilterCommutesWithPlanning(g: Stages, targets: seq<string>, markSkipped: bool,
                                   topo: seq<Name>, v: Verdicts, full: seq<PlanNode>,
                                   topo': seq<Name>, v': Verdicts, direct: seq<PlanNode>)
    requires Closed(g) && targets != []
    requires TopologicalOrder(g, topo) && PlanOf(g, v, topo, full)
    requires TopologicalOrder(PlannedStages(g, targets), topo') && PlanOf(PlannedStages(g, targets), v', topo', direct)
    ensures var selection := FilterSelection(full, targets);
            var filtered := FilterNodes(full, selection, markSkipped);
            && selection == PlannedStages(g, targets).Keys
            && (forall d :: d in direct ==> KeptBy(filtered, d))
            && (forall f :: f in filtered ==> ExplainedBy(direct, full, selection, markSkipped, f))
  {
    var closure := Closure(g, TargetSet(g.Keys, targets));
    SameSelection(g, targets, topo, v, full);
    assert AncestorClosed(g, closure) by { ClosureIsLeast(g, TargetSet(g.Keys, targets)); }
    assert Restrict(g, closure).Keys == closure;
    FilteredPlanMatches(g, closure, markSkipped, topo, v, full, topo', v', direct);
  }

  // ---------------------------------------------------------------- priorities in a plan

  /** Priorities are at most the number of stages and vanish exactly on stages that are not stale. */
  lemma PriorityRange(g: Stages, v: Verdicts, topo: seq<Name>, n: PlanNode)
    requires TopologicalOrder(g, topo) && NodeOk(g, v, n)
    ensures n.priority <= |g|
    ensures n.priority == 0 <==> !n.stale
  {
    if n.priority > 0 {
      var c :| StaleChain(g, v, c) && c != [] && c[0] == n.name && |c| == n.priority;
      WalkFits(g, topo, c);
      assert v[c[0]].Some?;
    }
    if n.stale {
      assert StaleChain(g, v, [n.name]);
    }
  }

  /** Priorities fall strictly along every dependency between stale stages. */
  lemma PriorityFalls(g: Stages, v: Verdicts, up: PlanNode, down: PlanNode)
    requires NodeOk(g, v, up) && NodeOk(g, v, down)
    requires up.stale && down.stale && up.name in down.deps
    ensures up.priority > down.priority
  {
    assert StaleChain(g, v, [up.name]);
    if down.priority > 0 {
      var c :| StaleChain(g, v, c) && c != [] && c[0] == down.name && |c| == down.priority;
      assert StaleChain(g, v, [up.name] + c);
    }
  }
}
