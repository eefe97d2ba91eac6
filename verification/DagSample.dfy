/** A run of a small plan in which a recovery breaks the strict order
    (src/scheduler/persistence.py). */
module DagSample {
  import opened Prelude
  import opened DagPropagation
  import opened DagRuns
  import opened DagOrder

  /** `train` and `eval` read what `prep` produces. */
  function SampleNodes(): seq<PlanNode> {
    [PlanNode("prep", [], true, ["data"]), PlanNode("train", ["prep"], true, []), PlanNode("eval", ["prep"], true, [])]
  }

  function SamplePlan(): Plan {
    Plan(map["prep" := [], "train" := ["prep"], "eval" := ["prep"]],
         map["prep" := ["data"], "train" := [], "eval" := []])
  }

  function SampleState(prep: Status, train: Status, eval: Status): RunState {
    var zero: map<Node, nat> := map["prep" := 0, "train" := 0, "eval" := 0];
    RunState(Job(SampleStatuses(prep, train, eval), zero, zero), {}, {})
  }

  function SampleStatuses(prep: Status, train: Status, eval: Status): Statuses {
    map["prep" := prep, "train" := train, "eval" := eval]
  }

  lemma SampleRows()
    ensures InsertRows(SampleNodes()) == (SamplePlan(), SampleState(Ready, Pending, Pending).job)
  {
    var nodes := SampleNodes();
    assert nodes[..2] == [nodes[0], nodes[1]] && nodes[..2][..1] == [nodes[0]] && nodes[..2][..1][..0] == [];
    assert InsertRows([nodes[0]]) == (Plan(map["prep" := []], map["prep" := ["data"]]),
                                      Job(map["prep" := Ready], map["prep" := 0], map["prep" := 0]));
  }

  const ROWS: seq<Node> := ["prep", "train", "eval"]

  lemma RowsAreNodes()
    ensures Enumerates(ROWS, SamplePlan().deps.Keys)
  {
    assert ROWS[0] == "prep" && ROWS[1] == "train" && ROWS[2] == "eval";
  }

  lemma SampleVisits()
    ensures var g := SamplePlan().deps;
            && Visit(g, SampleStatuses(Done, Pending, Pending), "prep") == SampleStatuses(Done, Pending, Pending)
            && Visit(g, SampleStatuses(Done, Pending, Pending), "train") == SampleStatuses(Done, Ready, Pending)
            && Visit(g, SampleStatuses(Done, Ready, Pending), "eval") == SampleStatuses(Done, Ready, Ready)
  {
  }

  lemma SamplePass()
    requires Enumerates(ROWS, SamplePlan().deps.Keys)
    ensures Pass(SamplePlan().deps, SampleStatuses(Done, Pending, Pending), ROWS)
         == SampleStatuses(Done, Ready, Ready)
  {
    var g, st := SamplePlan().deps, SampleStatuses(Done, Pending, Pending);
    SampleVisits();
    assert ROWS[..2] == ["prep", "train"] && ["prep", "train"][..1] == ["prep"] && ["prep"][..0] == [];
    assert Pass(g, st, ["prep"]) == Visit(g, Pass(g, st, []), "prep");
    assert Pass(g, st, ["prep", "train"]) == Visit(g, Pass(g, st, ["prep"]), "train");
    assert Pass(g, st, ROWS) == Visit(g, Pass(g, st, ["prep", "train"]), "eval");
  }

  ghost predicate Steps(limit: nat, s: RunState, e: Event, s': RunState) {
    ValidJob(SamplePlan(), s.job) && Enabled(SamplePlan(), s, e) && Step(SamplePlan(), limit, s, e) == s'
  }

  lemma SampleIsValid(prep: Status, train: Status, eval: Status)
    ensures ValidJob(SamplePlan(), SampleState(prep, train, eval).job)
  {
  }

  lemma UpdatePrep(prep: Status, train: Status, eval: Status, to: Status)
    ensures SampleStatuses(prep, train, eval)["prep" := to] == SampleStatuses(to, train, eval)
  {
  }

  lemma UpdateTrain(prep: Status, train: Status, eval: Status, to: Status)
    ensures SampleStatuses(prep, train, eval)["train" := to] == SampleStatuses(prep, to, eval)
  {
  }

  lemma UpdateEval(prep: Status, train: Status, eval: Status, to: Status)
    ensures SampleStatuses(prep, train, eval)["eval" := to] == SampleStatuses(prep, train, to)
  {
  }

  lemma ClaimSteps(limit: nat, s: RunState, n: Node)
    requires ValidJob(SamplePlan(), s.job) && n in s.job.status && s.job.status[n].Ready?
    ensures Steps(limit, s, Claim(n), s.(job := SetStatus(s.job, n, Running)))
  {
  }

  lemma DoneSteps(limit: nat, s: RunState, n: Node)
    requires ValidJob(SamplePlan(), s.job) && n in s.job.status && s.job.status[n].Running? && n !in s.relaunched
    ensures Steps(limit, s, ReportDone(n), s.(job := SetStatus(s.job, n, Done)))
  {
    assert s.relaunched - {n} == s.relaunched;
  }

  lemma PrepWorks(limit: nat, train: Status, eval: Status)
    ensures Steps(limit, SampleState(Ready, train, eval), Claim("prep"), SampleState(Running, train, eval))
    ensures Steps(limit, SampleState(Running, train, eval), ReportDone("prep"), SampleState(Done, train, eval))
  {
    SampleIsValid(Ready, train, eval);
    SampleIsValid(Running, train, eval);
    UpdatePrep(Ready, train, eval, Running);
    UpdatePrep(Running, train, eval, Done);
    ClaimSteps(limit, SampleState(Ready, train, eval), "prep");
    DoneSteps(limit, SampleState(Running, train, eval), "prep");
  }

  lemma TrainWorks(limit: nat, prep: Status, eval: Status)
    ensures Steps(limit, SampleState(prep, Ready, eval), Claim("train"), SampleState(prep, Running, eval))
    ensures Steps(limit, SampleState(prep, Running, eval), ReportDone("train"), SampleState(prep, Done, eval))
  {
    SampleIsValid(prep, Ready, eval);
    SampleIsValid(prep, Running, eval);
    UpdateTrain(prep, Ready, eval, Running);
    UpdateTrain(prep, Running, eval, Done);
    ClaimSteps(limit, SampleState(prep, Ready, eval), "train");
    DoneSteps(limit, SampleState(prep, Running, eval), "train");
  }

  lemma EvalStarts(limit: nat, prep: Status, train: Status)
    ensures Steps(limit, SampleState(prep, train, Ready), Claim("eval"), SampleState(prep, train, Running))
  {
    SampleIsValid(prep, train, Ready);
    UpdateEval(prep, train, Ready, Running);
    ClaimSteps(limit, SampleState(prep, train, Ready), "eval");
  }

  lemma SamplePropagates(limit: nat)
    ensures Steps(limit, SampleState(Done, Pending, Pending), Propagate(ROWS), SampleState(Done, Ready, Ready))
  {
    RowsAreNodes();
    SamplePass();
    SampleIsValid(Done, Pending, Pending);
  }

  /** A run of the sample that has come to a state. */
  ghost predicate Reaches(limit: nat, states: seq<RunState>, events: seq<Event>, s: RunState) {
    && IsRun(SamplePlan(), limit, states, events)
    && states[0] == SampleState(Ready, Pending, Pending) && states[|events|] == s
  }

  lemma ReachMore(limit: nat, states: seq<RunState>, events: seq<Event>, s: RunState, e: Event, s': RunState)
    requires Reaches(limit, states, events, s) && Steps(limit, s, e, s') && ValidJob(SamplePlan(), s'.job)
    ensures Reaches(limit, states + [s'], events + [e], s')
  {
    RunGrows(SamplePlan(), limit, states, events, e, s');
  }

  lemma RunGrows(p: Plan, limit: nat, states: seq<RunState>, events: seq<Event>, e: Event, s': RunState)
    requires IsRun(p, limit, states, events) && ValidJob(p, s'.job)
    requires Enabled(p, states[|events|], e) && s' == Step(p, limit, states[|events|], e)
    ensures IsRun(p, limit, states + [s'], events + [e])
  {
    var states', events' := states + [s'], events + [e];
    forall i | 0 <= i < |events'|
      ensures Enabled(p, states'[i], events'[i]) && states'[i + 1] == Step(p, limit, states'[i], events'[i])
    {
      if i < |events| {
        assert states'[i] == states[i] && states'[i + 1] == states[i + 1] && events'[i] == events[i];
      }
    }
  }

  /** `prep` runs, both consumers become ready, `train` runs, `eval` starts. */
  lemma SampleReached(limit: nat) returns (states: seq<RunState>, events: seq<Event>)
    ensures Reaches(limit, states, events, SampleState(Done, Done, Running))
  {
    var start := SampleState(Ready, Pending, Pending);
    SampleIsValid(Ready, Pending, Pending);
    states, events := [start], [];
    assert Reaches(limit, states, events, start);
    PrepWorks(limit, Pending, Pending);
    states, events := Reach(limit, states, events, Claim("prep"), Ready, Pending, Pending, Running, Pending, Pending);
    states, events := Reach(limit, states, events, ReportDone("prep"),
                            Running, Pending, Pending, Done, Pending, Pending);
    SamplePropagates(limit);
    states, events := Reach(limit, states, events, Propagate(ROWS), Done, Pending, Pending, Done, Ready, Ready);
    TrainWorks(limit, Done, Ready);
    states, events := Reach(limit, states, events, Claim("train"), Done, Ready, Ready, Done, Running, Ready);
    states, events := Reach(limit, states, events, ReportDone("train"), Done, Running, Ready, Done, Done, Ready);
    EvalStarts(limit, Done, Done);
    states, events := Reach(limit, states, events, Claim("eval"), Done, Done, Ready, Done, Done, Running);
  }

  lemma Reach(limit: nat, states: seq<RunState>, events: seq<Event>, e: Event,
              prep: Status, train: Status, eval: Status, prep': Status, train': Status, eval': Status)
    returns (states': seq<RunState>, events': seq<Event>)
    requires Reaches(limit, states, events, SampleState(prep, train, eval))
    requires Steps(limit, SampleState(prep, train, eval), e, SampleState(prep', train', eval'))
    ensures Reaches(limit, states', events', SampleState(prep', train', eval'))
  {
    SampleIsValid(prep', train', eval');
    ReachMore(limit, states, events, SampleState(prep, train, eval), e, SampleState(prep', train', eval'));
    states', events' := states + [SampleState(prep', train', eval')], events + [e];
  }

  lemma SampleProducer(order: seq<Node>)
    requires Enumerates(order, SamplePlan().deps.Keys)
    ensures LastProducer(SamplePlan().outs, order, ["data"]) == Some("prep")
  {
    var outs := SamplePlan().outs;
    assert "data" in outs["prep"] && "data" in ["data"] && Produces(outs["prep"], ["data"]);
    assert forall n :: n in outs && Produces(outs[n], ["data"]) ==> n == "prep";
    assert "prep" in order;
  }

  lemma SampleIsStrict()
    ensures ValidJob(SamplePlan(), SampleState(Done, Done, Running).job)
    ensures Strict(SamplePlan(), SampleState(Done, Done, Running).job)
  {
  }

  lemma SampleDiagnosis(order: seq<Node>)
    requires Enumerates(order, SamplePlan().deps.Keys) && ValidJob(SamplePlan(), SampleState(Done, Done, Running).job)
    ensures Diagnose(SamplePlan(), SampleState(Done, Done, Running).job, "eval", ["data"], false, order)
         == Relaunch("prep")
  {
    SampleProducer(order);
  }

  lemma SampleRecovery(limit: nat, order: seq<Node>, s: RunState)
    requires Enumerates(order, SamplePlan().deps.Keys) && s == SampleState(Done, Done, Running)
    ensures var e := MissingDeps("eval", ["data"], false, order);
            && ValidJob(SamplePlan(), s.job) && Enabled(SamplePlan(), s, e)
            && Strict(SamplePlan(), s.job) && !Strict(SamplePlan(), Step(SamplePlan(), limit, s, e).job)
  {
    SampleIsStrict();
    SampleDiagnosis(order);
    assert "train" in SamplePlan().deps && "prep" in SamplePlan().deps["train"] && Live(s.job.status["train"]);
    assert OtherLiveChild(SamplePlan(), s.job, "eval", "prep");
    RelaunchKeepsStrictExactly(SamplePlan(), s.job, "eval", "prep");
  }

  /** A run of a plan that gets there: `eval` reports its input missing, and `train` stays done above
      a parent that is ready again. */
  lemma RecoveryUndoesParent(limit: nat, order: seq<Node>) returns (states: seq<RunState>, events: seq<Event>)
    requires Enumerates(order, SamplePlan().deps.Keys)
    ensures RunOfPlan(SampleNodes(), limit, states, events) && InsertRows(SampleNodes()).0 == SamplePlan()
    ensures var s := states[|events|];
            var e := MissingDeps("eval", ["data"], false, order);
            && ValidJob(SamplePlan(), s.job) && Enabled(SamplePlan(), s, e)
            && Strict(SamplePlan(), s.job) && !Strict(SamplePlan(), Step(SamplePlan(), limit, s, e).job)
  {
    SampleRows();
    states, events := SampleReached(limit);
    SampleRecovery(limit, order, states[|events|]);
  }
}
