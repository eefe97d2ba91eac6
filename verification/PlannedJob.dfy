/** From the planner to the scheduler: the rows that init_job_nodes_from_plan makes of a computed
    plan (src/planner/stage_plan.py, src/scheduler/persistence.py). */
module PlannedJob {
  import opened Prelude
  import StageGraph
  import Staleness
  import StagePlan
  import opened DagPropagation
  import opened DagRuns
  import DagStore

  /** The columns that the scheduler reads from a plan node; the output paths come with it. */
  function Rows(nodes: seq<StagePlan.PlanNode>, outs: map<Node, seq<string>>): seq<PlanNode> {
    if nodes == [] then []
    else
      var n := nodes[|nodes| - 1];
      Rows(nodes[..|nodes| - 1], outs) +
      [PlanNode(n.name, n.deps, n.stale, if n.name in outs then outs[n.name] else [])]
  }

  /** The dependency graph of the job. */
  function JobGraph(nodes: seq<StagePlan.PlanNode>, outs: map<Node, seq<string>>): Graph {
    InsertRows(Rows(nodes, outs)).0.deps
  }

  lemma {:induction false} RowsKeepDeps(nodes: seq<StagePlan.PlanNode>, outs: map<Node, seq<string>>, i: nat)
    requires i < |nodes| && forall j, k :: 0 <= j < k < |nodes| ==> nodes[j].name != nodes[k].name
    ensures var deps := JobGraph(nodes, outs); nodes[i].name in deps && deps[nodes[i].name] == nodes[i].deps
  {
    var front := nodes[..|nodes| - 1];
    var rows := Rows(nodes, outs);
    assert rows[..|rows| - 1] == Rows(front, outs);
    if i < |front| { RowsKeepDeps(front, outs, i); }
  }

  lemma {:induction false} RowsAddNothing(nodes: seq<StagePlan.PlanNode>, outs: map<Node, seq<string>>, n: Node)
    requires n in JobGraph(nodes, outs)
    ensures exists i :: 0 <= i < |nodes| && nodes[i].name == n
  {
    var front := nodes[..|nodes| - 1];
    var rows := Rows(nodes, outs);
    if nodes != [] {
      assert rows[..|rows| - 1] == Rows(front, outs);
      if n != nodes[|nodes| - 1].name {
        RowsAddNothing(front, outs, n);
        var i :| 0 <= i < |front| && front[i].name == n;
        assert nodes[i].name == n;
      }
    }
  }

  /** The job of a plan has the planned stages as nodes, in an order that puts parents first, and
      no dependency that leaves the job. */
  lemma PlannedJobIsAcyclic(g: StageGraph.Stages, v: Staleness.Verdicts, topo: seq<Node>,
                            nodes: seq<StagePlan.PlanNode>, outs: map<Node, seq<string>>)
    requires StagePlan.PlanOf(g, v, topo, nodes) && StageGraph.TopologicalOrder(g, topo)
    ensures var deps := JobGraph(nodes, outs);
            TopologicalOrder(deps, topo) && ClosedGraph(deps) && ChainsBounded(deps, |topo|)
  {
    var deps := JobGraph(nodes, outs);
    forall i | 0 <= i < |topo| ensures topo[i] in deps && deps[topo[i]] == g[topo[i]].ups {
      RowsKeepDeps(nodes, outs, i);
    }
    forall n ensures n in deps <==> n in topo {
      if n in deps { RowsAddNothing(nodes, outs, n); }
    }
    forall n, d | n in deps && d in deps[n] ensures d in deps {
      var i :| 0 <= i < |topo| && topo[i] == n;
      assert d in topo[..i];
    }
    TopologicalOrderBoundsChains(deps, topo);
  }

  // ---------------------------------------------------------------- what the first rows skip

  lemma {:induction false} RowsOf(nodes: seq<StagePlan.PlanNode>, outs: map<Node, seq<string>>)
    ensures var rows := Rows(nodes, outs);
            && |rows| == |nodes|
            && forall i :: 0 <= i < |rows| ==> rows[i].name == nodes[i].name && rows[i].stale == nodes[i].stale
  {
    if nodes != [] { RowsOf(nodes[..|nodes| - 1], outs); }
  }

  /** Rows for the planned stages in their order, stale exactly for the stages to run. */
  ghost predicate RowsToRun(rows: seq<PlanNode>, topo: seq<Node>, run: set<Node>) {
    |rows| == |topo| && forall i :: 0 <= i < |rows| ==> rows[i].name == topo[i] && (rows[i].stale <==> topo[i] in run)
  }

  lemma SkipsMean(rows: seq<PlanNode>, topo: seq<Node>, stages: set<Node>, run: set<Node>, st: Statuses)
    requires RowsToRun(rows, topo, run) && Enumerates(topo, stages) && run <= stages
    requires DagStore.SkipsUpToDate(rows, st)
    ensures st.Keys == stages && (forall n :: n in st ==> (st[n].Skipped? <==> n !in run))
    ensures DagStore.AllSkipped(st) <==> stages != {} && run == {}
  {
    forall n ensures n in st <==> n in stages {
      if n in st { assert DagStore.HasNode(rows, n); }
      if n in stages {
        assert n in topo;
        var i :| 0 <= i < |topo| && topo[i] == n;
        assert rows[i].name in st;
      }
    }
    forall n | n in st ensures st[n].Skipped? <==> n !in run {
      assert n in topo;
      var i :| 0 <= i < |topo| && topo[i] == n;
      assert st[rows[i].name].Skipped? <==> !rows[i].stale;
    }
    NoneToRun(stages, run, st);
  }

  lemma NoneToRun(stages: set<Node>, run: set<Node>, st: Statuses)
    requires st.Keys == stages && run <= stages && forall n :: n in st ==> (st[n].Skipped? <==> n !in run)
    ensures DagStore.AllSkipped(st) <==> stages != {} && run == {}
  {
    if stages != {} {
      var n :| n in stages;
      assert n in st;
    }
    if m :| m in run { assert m in st; }
  }

  /** The first statuses of such rows, whatever the row order of the first pass. */
  lemma FirstPassOfRows(rows: seq<PlanNode>, topo: seq<Node>, stages: set<Node>, run: set<Node>, order: seq<Node>)
    requires RowsToRun(rows, topo, run) && Enumerates(topo, stages) && run <= stages
    requires Enumerates(order, InsertRows(rows).0.deps.Keys)
    ensures var st := Pass(InsertRows(rows).0.deps, InsertRows(rows).1.status, order);
            && st.Keys == stages && (forall n :: n in st ==> (st[n].Skipped? <==> n !in run))
            && (DagStore.AllSkipped(st) <==> stages != {} && run == {})
  {
    DagStore.FirstPassSkipsUpToDate(rows, order);
    SkipsMean(rows, topo, stages, run, Pass(InsertRows(rows).0.deps, InsertRows(rows).1.status, order));
  }

  /** The stages that are not frozen and that staleness reaches. */
  ghost function ToRun(g: StageGraph.Stages): set<Node> {
    set n | n in g && !g[n].frozen && Staleness.ReachedByStale(g, n)
  }

  lemma PlanRows(g: StageGraph.Stages, v: Staleness.Verdicts, topo: seq<Node>,
                 nodes: seq<StagePlan.PlanNode>, outs: map<Node, seq<string>>)
    requires StagePlan.PlanOf(g, v, topo, nodes) && StageGraph.TopologicalOrder(g, topo)
    ensures RowsToRun(Rows(nodes, outs), topo, ToRun(g))
  {
    RowsOf(nodes, outs);
    StagePlan.PlanMeansReach(g, v, topo, nodes);
  }

  /** When the job of a plan starts: the rows are the planned stages, those of the stages that
      staleness does not reach are skipped and no others, and the job is completed at once if and
      only if it has rows and no stage is to run. */
  lemma PlannedJobSkipsUpToDate(g: StageGraph.Stages, v: Staleness.Verdicts, topo: seq<Node>,
                                nodes: seq<StagePlan.PlanNode>, outs: map<Node, seq<string>>, order: seq<Node>)
    requires StagePlan.PlanOf(g, v, topo, nodes) && StageGraph.TopologicalOrder(g, topo)
    requires Enumerates(order, JobGraph(nodes, outs).Keys)
    ensures var st := Pass(JobGraph(nodes, outs), InsertRows(Rows(nodes, outs)).1.status, order);
            && st.Keys == g.Keys
            && (forall n :: n in st ==> (st[n].Skipped? <==> g[n].frozen || !Staleness.ReachedByStale(g, n)))
            && (DagStore.AllSkipped(st) <==>
                  g != map[] && forall n :: n in g ==> g[n].frozen || !Staleness.ReachedByStale(g, n))
  {
    PlanRows(g, v, topo, nodes, outs);
    FirstPassOfRows(Rows(nodes, outs), topo, g.Keys, ToRun(g), order);
    assert ToRun(g) == {} <==> forall n :: n in g ==> n !in ToRun(g);
  }

  lemma FilteredRows(g: StageGraph.Stages, v: Staleness.Verdicts, topo: seq<Node>, nodes: seq<StagePlan.PlanNode>,
                     kept: set<Node>, filtered: seq<StagePlan.PlanNode>, outs: map<Node, seq<string>>)
    requires StagePlan.PlanOf(g, v, topo, nodes) && StageGraph.TopologicalOrder(g, topo)
    requires StagePlan.MarksOthers(nodes, kept, filtered)
    ensures RowsToRun(Rows(filtered, outs), topo, ToRun(g) * kept)
  {
    RowsOf(filtered, outs);
    StagePlan.PlanMeansReach(g, v, topo, nodes);
  }

  /** When the job of a filtered plan starts: it has a row for every stage of the full plan, and the
      rows to run are exactly those of the selected stages that staleness reaches. */
  lemma FilteredJobRunsSelection(g: StageGraph.Stages, v: Staleness.Verdicts, topo: seq<Node>,
                                 nodes: seq<StagePlan.PlanNode>, targets: seq<string>,
                                 filtered: seq<StagePlan.PlanNode>, outs: map<Node, seq<string>>, order: seq<Node>)
    requires StagePlan.PlanOf(g, v, topo, nodes) && StageGraph.TopologicalOrder(g, topo)
    requires StagePlan.MarksOthers(nodes, StagePlan.FilterSelection(nodes, targets), filtered)
    requires Enumerates(order, JobGraph(filtered, outs).Keys)
    ensures var st := Pass(JobGraph(filtered, outs), InsertRows(Rows(filtered, outs)).1.status, order);
            var selection := StageGraph.Closure(g, StageGraph.TargetSet(g.Keys, targets));
            && st.Keys == g.Keys
            && forall n :: n in st ==>
                 (!st[n].Skipped? <==> n in selection && !g[n].frozen && Staleness.ReachedByStale(g, n))
  {
    StagePlan.SameSelection(g, targets, topo, v, nodes);
    var selection := StageGraph.Closure(g, StageGraph.TargetSet(g.Keys, targets));
    FilteredRows(g, v, topo, nodes, selection, filtered, outs);
    FirstPassOfRows(Rows(filtered, outs), topo, g.Keys, ToRun(g) * selection, order);
  }

  // ---------------------------------------------------------------- progress

  /** The job is completed, or a node can run or runs, or a node failed. */
  ghost predicate Decided(job: JobStatus, st: Statuses) {
    || (Aggregate(job, st).JobCompleted? && forall n :: n in st ==> Succeeded(st[n]))
    || (Aggregate(job, st).JobRunning? && exists n :: n in st && (st[n].Ready? || st[n].Running? || st[n].Preempting?))
    || (Aggregate(job, st).JobFailed? && exists n :: n in st && st[n].Failed?)
  }

  lemma FixpointIsDecided(g: Graph, st: Statuses, job: JobStatus, bound: nat)
    requires st.Keys == g.Keys && Fixpoint(g, st) && ClosedGraph(g) && ChainsBounded(g, bound)
    requires g != map[] && !job.JobFailed? && !job.JobCompleted?
    ensures Decided(job, st)
  {
    var n :| n in g;
    assert n in st;
    NoStuckJob(g, st, job, bound);
  }

  /** A planned job never sticks: from whatever statuses, after as many propagation passes as it
      has nodes, in whatever row orders, its status is decided. */
  lemma PlannedJobNeverSticks(g: StageGraph.Stages, v: Staleness.Verdicts, topo: seq<Node>,
                              nodes: seq<StagePlan.PlanNode>, outs: map<Node, seq<string>>,
                              st: Statuses, orders: seq<seq<Node>>, job: JobStatus)
    requires StagePlan.PlanOf(g, v, topo, nodes) && StageGraph.TopologicalOrder(g, topo) && topo != []
    requires var deps := JobGraph(nodes, outs);
             st.Keys == deps.Keys && forall o :: o in orders ==> Enumerates(o, deps.Keys)
    requires |orders| == |topo| && !job.JobFailed? && !job.JobCompleted?
    ensures Decided(job, Passes(JobGraph(nodes, outs), st, orders))
  {
    var deps := JobGraph(nodes, outs);
    PlannedJobIsAcyclic(g, v, topo, nodes, outs);
    PassesReachFixpoint(deps, st, orders);
    assert topo[0] in deps;
    FixpointIsDecided(deps, Passes(deps, st, orders), job, |topo|);
  }
}
