# Verification of the DVC cluster orchestrator's core algorithms

This Dafny project models nine parts of the orchestrator and proves what they keep. `dafny verify dfyconfig.toml`
checks everything. Code that updates state in place is modelled as classes and methods; each method is proved equal
to a specification function or predicate, and the theorems are about those specifications and about whole runs.

| part | source | modules |
|---|---|---|
| state machine of a job's DAG nodes | `src/scheduler/persistence.py` | DagPropagation, DagExact, DagRuns, DagLimits, DagOrder, DagSample, DagStore |
| three-way merge of `dvc.lock` | `src/runner/dvc_lock_merge.py` | LockMerge, LockAlgebra |
| concurrent publication of results | `src/runner/dvc_git_helper.py` | Publication, PublicationRuns, PublicationStore |
| planner | `src/planner/stage_plan.py` | StageGraph, Staleness, StagePlan, PlannedJob |
| topological sort of the stage graph | `src/runner/dvc_iterative_repro.py` | TopoSort |
| checkpoint handoff | `src/runner/local_workspace.py` | Handoff, HandoffRuns, HandoffSafety, HandoffCalls, HandoffStore |
| fetch of content-addressed objects | `src/runner/fetch_cas_dependencies.py` | CasFetch, CasReport, CasItems, CasChains, CasUnnamed, CasStore |
| tiered garbage collection | `src/runner/gc_orchestrator.py` | TieredGc, GcSafety, GcPlan, GcNames, GcCaches, GcStore, GcOrder |
| virtual terminal of the log filter | `scripts/tmate_log_filter.py` | Terminal, TerminalInvariants, TerminalOutput, TerminalDuplicates, TerminalShadow, TerminalCommands, TerminalRedraw, TerminalFilter |

The main results:

* **DAG jobs.** One propagation pass in topological order, or as many passes in any row orders as the longest chain
  has nodes, blocks exactly the open nodes that a failure reaches through open nodes. At a fixpoint no job is stuck.
  Both hold if and only if the job is acyclic and closed. Every run keeps "live nodes have succeeded parents" up to
  nodes sent back by missing-dependency recovery, and takes at most n(2R + 10) steps plus one per preemption or
  heartbeat recovery. The rows of a computed plan meet the acyclicity that the convergence results need; they skip
  exactly the stages that staleness does not reach, or that a filter leaves out.
* **Publication.** For any number of workers and any interleaving, if no two results change one entry differently and
  the start commit has a lock, nobody meets a conflict, the branch's lock is the merge of exactly the pushed results,
  and each published result stays in every later commit. The merge is a least upper bound, so the order of pushes is
  irrelevant. A push succeeds as soon as one of its rounds gets through; a sync merges what both sides changed.
* **Planner.** Staleness is reachability from an intrinsic reason; priority is the longest downstream chain of stale
  stages; filtering a full plan and planning the closure directly select the same nodes with the same data.
* **Handoff.** If a node belongs to one runner of a worker at a time, interrupted work stays in its worktree and
  record until the headnode has received exactly what the worktree saves, through every crash, failed upload and
  interleaving.
* **Fetch.** Whatever the peers serve, every object written matches its name, success means that everything a wanted
  item names is in the cache, and the report names exactly the items of which something failed.
* **Sort.** There is exactly one list in which nodes come after their predecessors and, among the others, in the order
  of readiness and name; the sort returns it, however the edges are listed.
* **Garbage collection.** The actions are the shortest start of the least-recently-used plan that reaches the target;
  which actions are planned, and in which order, is said exactly; no mount that docker reports in full is ever taken,
  and which directories, volumes and caches survive is said exactly.
* **Terminal.** The screen's invariants hold for every stream; of printable lines the forced output is exactly the
  rows they take and the unforced output what the duplicate filter leaves of these. Lines drawn again in place replace
  the old ones.

## Where the code and its own promises differ

The model follows the code. Each of these is a lemma below.

* A report is not compared with the runner that holds its node, and with the node's status only if that is preempting.
  Unless the job has ended or the report looks like the end of a process stopped by a preemption, one that arrives
  after its node is done is carried out, and `DagOrder.LateReport` says exactly when it breaks the order of the DAG. A
  recovery can leave other consumers done above a producer that is ready again (`DagOrder.RelaunchKeepsStrictExactly`,
  and a run that gets there in `DagSample.RecoveryUndoesParent`).
* A push keeps the branch's changes exactly if the start commit has a lock and the pushed one differs from it. An
  unchanged lock pushed late takes another worker's result out of the branch (`Publication.NoLostUpdateExactly`,
  `Publication.UnchangedLockRevertsOthers`).
* A sync is expected to keep unpushed local stages (`src/runner/test_dvc_lock_merge.py:446`), and does if the branch
  changed `dvc.lock` as well. If the branch has not changed it since the merge base while HEAD has another one, the
  branch's lock takes the local changes out (`PublicationRuns.SyncKeepsLocalChangesExactly`).
* The pending marker is checked before the download and not after it, so a checkpoint marked meanwhile is overwritten
  (`HandoffRuns.MarkedAtRiskIffMarkedDuringRestore`). The archive is replaced before it is marked, so a crash between
  the two leaves it to be replaced by the headnode's copy (`HandoffRuns.UnmarkedArchiveIsReplaced`). With two records
  of one node, a pending-only call drops the record of a runner that still works
  (`HandoffCalls.SecondRecordLosesWork`).
* A restored checkpoint is completed by what the start commit tracks, so a file that the interrupted run had removed
  comes back (`HandoffCalls.NextRunnerResumes`).
* `fetch_dependencies` promises to resolve manifests recursively, and opens only the top-level ones;
  `CasChains.ResolvedExactly` and `CasChains.NamedManifestsResolve` say when the promise holds all the same. A fetch
  can fail without naming any missing dependency (`CasUnnamed.FailureNamesSomethingExactly`).
* Project names are to have no "." components (`gc_orchestrator.py:269`), and those of several components may have
  some: `GcNames.PromiseKeptExactly`, and `GcNames.DotsAreAccepted` for the directory of all repositories.
* The DVC cache of a repository is to be kept while one of its executors is active (`gc_orchestrator.py:1038`). The
  third tier asks for that, the last one removes the cache with its workspace and does not:
  `GcCaches.UsedCachesAreKeptExactly`, with two workspaces for which it fails in
  `GcCaches.RunningWorkspaceLosesCache`.
* A project's directory and volumes are recognised by name prefixes: a protected project whose name continues an idle
  one's loses them (`GcSafety.DirectorySurvivesExactly`, `GcSafety.VolumeSurvivesExactly`,
  `GcSafety.ContinuedProjectIsLost`).
* The log filter promises lines without duplicates, and prints each shown line unforced, when the cursor leaves it for
  the first time, and forced, when it scrolls off or at the end (`TerminalDuplicates.NoDuplicatesIffNothingShown`).

## Model

| member | source | states |
|---|---|---|
| DagPropagation.PassesReachFixpoint | src/scheduler/persistence.py:439-477 | on an acyclic job, as many passes as the longest chain has nodes reach a state that no further visit changes, whatever the row order of each pass |
| DagPropagation.TopologicalPassReachesFixpoint | src/scheduler/persistence.py:439-477 | from any statuses, one pass that visits parents first reaches such a state |
| DagPropagation.PassAtFixpoint | src/scheduler/persistence.py:439-477 | a pass in any order changes nothing at a fixpoint |
| DagPropagation.BlockedIffReached | src/scheduler/persistence.py:457-477 | at a fixpoint, an open node is blocked if and only if a dependency chain through open nodes leads to it from a failed node |
| DagPropagation.TopologicalPassBlocks | src/scheduler/persistence.py:439-477 | one topological pass from any statuses blocks exactly the open nodes reached by a failure before the pass, and a second pass in any order changes nothing |
| DagPropagation.ArbitraryPassesBlock | src/scheduler/persistence.py:424-477 | enough passes in unspecified row orders block the same set |
| DagExact.BlocksRightlyExactly | src/scheduler/persistence.py:457-477 | at every fixpoint of a job the blocked nodes are those a failure reaches if and only if the job has no cycle |
| DagPropagation.TopologicalOrderBoundsChains | src/scheduler/persistence.py:439-477 | a job with a topological order of n nodes has no chain longer than n |
| DagPropagation.NoStuckJob | src/scheduler/persistence.py:703-744 | at a fixpoint of an acyclic closed job that was not ended explicitly: completed iff all succeeded, running iff some node can run or runs, otherwise failed with a failed node, never pending |
| DagExact.NeverStuckExactly | src/scheduler/persistence.py:455-477 | at every fixpoint of a job its aggregated status is truthful and decided if and only if it has a row, every dependency has one, and there is no cycle |
| DagRuns.InitialRows | src/scheduler/persistence.py:374-398 | the inserted rows start with unused counters, skipped or pending, and ready only without dependencies |
| DagRuns.RowOfNode | src/scheduler/persistence.py:374-379 | a node's row is skipped if and only if the node is up to date, ready if and only if it is stale and has no dependencies, and pending otherwise |
| DagStore.FirstPassSkipsUpToDate | src/scheduler/persistence.py:374-412 | the first pass, in any row order, leaves exactly the rows of up-to-date nodes skipped, so all are skipped if and only if there is a node and none is stale |
| DagLimits.NodeIsTriedToTheLimit | src/scheduler/persistence.py:823-895 | a fresh node is ready again after each of its first R failures and failed from the next on; one that may not be retried fails at once; no other row changes |
| DagLimits.ReportsEscalate | src/scheduler/persistence.py:553-641 | of repeated reports of the same missing files, whatever happens to the rows in between, the first two have the fetch retried if a peer holds the files, the next sends the producer back, and later ones fail the consumer |
| DagLimits.UnknownFilesFail | src/scheduler/persistence.py:533-560 | a report fails its consumer for want of a producer if and only if no row declares any of the paths |
| DagLimits.AggregateExactly | src/scheduler/persistence.py:703-744 | for all statuses of the rows: an ended job keeps its status, and of the others exactly when one is completed, failed or pending |
| DagRuns.StepKeepsOrder | src/scheduler/persistence.py:593-688 | every claim, report, retry, preemption, heartbeat timeout, recovery and pass keeps: a live node has succeeded parents, up to parents sent back and not done again and nodes sent back while not live |
| DagRuns.RunsKeepInvariant | src/scheduler/persistence.py:338-895 | in every state of every run from a plan, that order holds and all retry and recovery counters are within their limits |
| DagRuns.StepPotential | src/scheduler/persistence.py:593-688 | the potential falls at each claim, report and recovery, is unchanged by propagation and preemption requests, and rises by exactly one for each node taken back |
| DagRuns.RunsAreBounded | src/scheduler/persistence.py:516-895 | a run of n nodes with retry limit R has at most n(2R + 10) claims, reports and recoveries plus one for each node taken back by preemption or heartbeat |
| DagOrder.RowChangeKeepsOrderExactly | src/scheduler/persistence.py:482-513 | whatever status is written to whatever row, the order is kept if and only if the row's own parents allow its status and, unless it counts as succeeded then, no other live node relies on it |
| DagOrder.LateReport | src/scheduler/scheduler_loop.py:906-1012 | a failure, with or without retries left, a preemption or a missing-files report that arrives after its node is done breaks the order if and only if the job has not ended, the report is not that of a stopped process about a node preempted before, a live, unexempted child relies on the node, and the node is not exempt itself |
| DagOrder.PassDoesNotRepair | src/scheduler/persistence.py:439-477 | a child that runs or is done stays above the failed or waiting parent through every pass |
| DagOrder.RelaunchKeepsStrictExactly | src/scheduler/persistence.py:622-641 | from a job in which every live node has succeeded parents, sending a producer back keeps that if and only if the producer may run and no live node but the consumer depends on it |
| DagSample.RecoveryUndoesParent | src/scheduler/persistence.py:593-641 | a run of a plan reaches such a job from which a recovery leaves a done consumer above a producer that is ready again |
| DagRuns.LastProducer | src/scheduler/persistence.py:533-551 | the scan finds a row that declares a missing path if there is one, and none only if there is none |
| DagRuns.NoLaterProducer | src/scheduler/persistence.py:533-551 | and no row after the one found declares one |
| DagStore.JobNodes.InitFromPlan | src/scheduler/persistence.py:338-412 | rows and status equal one pass over the inserted rows; the skipped rows are those of the up-to-date nodes, and the job is completed at once if and only if there is a node and none is stale |
| DagStore.JobNodes.VisitRow | src/scheduler/persistence.py:441-477 | the branches of the loop body change one row as the propagation rule says and no other |
| DagStore.JobNodes.UpdateDagReadyStates | src/scheduler/persistence.py:415-480 | the in-place loop over rows in the given order is the pass of the theorems, each write seen by later rows |
| DagStore.JobNodes.MarkNodeStatus | src/scheduler/persistence.py:482-513 | the reported status, then a pass; an unknown node changes nothing but the pass |
| DagStore.JobNodes.HandleMissingDeps | src/scheduler/persistence.py:516-641 | the outcome is the diagnosis on the old rows, and counters and statuses are its updates followed by a pass |
| DagStore.JobNodes.CheckHeartbeatTimeouts | src/scheduler/persistence.py:657-688 | exactly the running rows without a sign of life within the timeout become ready, nothing else changes |
| DagStore.JobNodes.HandleNodeFailureOrRetry | src/scheduler/persistence.py:775-895 | retry, give-up or requeue as the run model's step, a preemption using up no retry |
| DagStore.JobNodes.GetAggregatedJobStatus | src/scheduler/persistence.py:703-744 | the status that the no-stuck-job theorem speaks about |
| LockMerge.MergeStages | src/runner/dvc_lock_merge.py:65-154 | on success every stage resolves and the result holds it, keys being the surviving ours in order then theirs-only in theirs order without duplicates; on failure the named stage clashes |
| LockMerge.MergeRoot | src/runner/dvc_lock_merge.py:156-217 | the same for the other top-level keys |
| LockMerge.AssembleRoot | src/runner/dvc_lock_merge.py:219-234 | schema first and never dropped if one side has it, the other merged keys in order |
| LockMerge.MergeDvcLockData | src/runner/dvc_lock_merge.py:45-234 | the whole result meets the declarative specification of a merge, including the invalid stages error |
| LockMerge.ClashIffSomeKeyClashes | src/runner/dvc_lock_merge.py:65-217 | a conflict is raised if and only if some stage or other key was changed differently on both sides |
| LockMerge.SchemaIsKept | src/runner/dvc_lock_merge.py:219-234 | the merged document has a schema, first, if and only if a side has one; the value is a side's, and the changed one if both have it |
| LockMerge.SurvivorsInOrder | src/runner/dvc_lock_merge.py:65-217 | the keys of a merge are exactly the listed ones that survive, in the order in which they are listed |
| LockAlgebra.StageMergeIsMerge | src/runner/dvc_lock_merge.py:65-154 | the loops compute the pointwise merge of the algebra, and fail exactly when it does not exist |
| LockAlgebra.MergeCommutes | src/runner/dvc_lock_merge.py:65-154 | ours and theirs can be exchanged |
| LockAlgebra.MergeAssociates | src/runner/dvc_lock_merge.py:65-154 | three branches merge to the same lock, or conflict, in both groupings |
| LockAlgebra.MergeIdempotent | src/runner/dvc_lock_merge.py:65-154 | merging a lock with itself gives it back |
| LockAlgebra.BaseIsIdentity | src/runner/dvc_lock_merge.py:65-154 | an unchanged side leaves the other one as it is |
| LockAlgebra.MergeIsLeastUpperBound | src/runner/dvc_lock_merge.py:65-154 | the merge keeps each side's changes and is the least lock that does |
| LockAlgebra.FoldIsLeastUpperBound | src/runner/dvc_lock_merge.py:65-154 | the same for any number of branches merged one after the other |
| LockAlgebra.FoldIgnoresOrder | src/runner/dvc_lock_merge.py:65-154 | any order and multiplicity of the same branches gives the same lock or a conflict each time |
| LockAlgebra.FoldSucceedsIffCompatible | src/runner/dvc_lock_merge.py:65-154 | any number of branches merge if and only if no two change one entry differently |
| Publication.Targets | src/runner/dvc_git_helper.py:1161-1164 | the targets are exactly the given files that are allowed |
| Publication.AllowedExactly | src/runner/dvc_git_helper.py:989-998 | allowed are dvc.lock, the given paths, and what lies below them with a slash, and nothing else |
| Publication.StagedFiles | src/runner/dvc_git_helper.py:1268-1304 | a path outside the targets keeps the tip's content; a target has the workspace's content or is removed |
| Publication.StagedLock | src/runner/dvc_git_helper.py:1270-1304 | the tree's lock changes only if dvc.lock is a target, and then to the planned lock |
| Publication.NoLostUpdateExactly | src/runner/dvc_git_helper.py:1234-1299 | a push keeps the branch's changes, whatever they are, if and only if the start commit has a lock and the pushed lock exists and differs from it |
| PublicationRuns.StepKeepsInvariant | src/runner/dvc_git_helper.py:1161-1502 | sync, node run, fetch, push, lost acknowledgement, failure and other commits keep the protocol invariant relative to any lock that bounds all results |
| PublicationRuns.PublicationIsSafe | src/runner/dvc_git_helper.py:1161-1371 | in every state of every interleaving: no conflict, the branch's lock is the merge of exactly the pushed results, and each published result is in its commit and every later one |
| PublicationRuns.HistoryOnlyGrows | src/runner/dvc_git_helper.py:1322-1371 | earlier histories are starts of later ones |
| PublicationRuns.InterleavingsAgree | src/runner/dvc_git_helper.py:1161-1371 | two runs that pushed the same results, in any orders, end with the same lock |
| PublicationRuns.GivingUpTakesCommits | src/runner/dvc_git_helper.py:1173-1371 | a worker exhausts its attempts only after as many transient errors and landed commits as the limit |
| PublicationRuns.OtherPathsKeepTheirContent | src/runner/dvc_git_helper.py:1268-1304 | a path that nobody targets keeps its content through every push of every interleaving |
| PublicationRuns.PlannedLock | src/runner/dvc_git_helper.py:1214-1259 | the lock planned on a fetched tip is the merge of tip and result, without conflict |
| PublicationRuns.SyncedLock | src/runner/dvc_git_helper.py:1001-1048 | if the tip contains the local lock's changes and the local lock those of the merge base, wherever HEAD is, a sync never fails and ends with the tip's lock, or keeps the local one when HEAD has the tip's |
| PublicationRuns.SyncFailsExactly | src/runner/dvc_git_helper.py:1001-1048 | for all locks: a sync fails if and only if HEAD and the branch differ and the branch has no lock or contradicts the local one |
| PublicationRuns.SyncMerges | src/runner/dvc_git_helper.py:1034-1043 | if the branch changed the lock and no entry is contradicted, the synchronised lock holds the changes of both sides and nothing that neither has |
| PublicationRuns.SyncKeepsLocalChangesExactly | src/runner/dvc_git_helper.py:1001-1048 | a successful sync keeps the local changes if and only if HEAD has the branch's lock, there are none, or the branch changed the lock since the merge base |
| PublicationRuns.OverlayHoldsResult | src/runner/dvc_git_helper.py:1376-1502 | a node run on a lock that the tip contains leaves one that carries the whole result and otherwise only what the tip has |
| PublicationStore.SuccessIsPrepared | src/runner/dvc_git_helper.py:1173-1371 | a push that reports success left, at the reported commit, a tree prepared on the commit before it, or equal to its tip, from the worker's own files and from its own lock, as planned on earlier tips if dvc.lock is a target; no push changes those files |
| PublicationStore.SuccessCommitsMerge | src/runner/dvc_git_helper.py:1214-1371 | on a branch with locks, the commit of a successful push of a changed lock holds the merge of exactly that lock and tips of the branch, the commit before it among them, hence all changes of the lock |
| PublicationStore.RoundIsFetchThenPush | src/runner/dvc_git_helper.py:1173-1371 | a loop round does what the protocol's fetch and push steps do, whatever lands in between |
| PublicationStore.FailedFetchIsSkipped | src/runner/dvc_git_helper.py:1173-1190 | a failed fetch costs one round and nothing else, wherever in the loop it happens |
| PublicationStore.GivingUpTakesObstacles | src/runner/dvc_git_helper.py:1173-1373 | the loop gives up only if every round met an obstacle |
| PublicationStore.ConflictTakesContradiction | src/runner/dvc_git_helper.py:1234-1258 | a conflict is reported only if dvc.lock is a target and the worker's lock contradicts tips of the branch |
| PublicationStore.PushSucceeds | src/runner/dvc_git_helper.py:1173-1373 | with a changed lock that contradicts nothing on the branch, a push succeeds as soon as one round gets through, whatever the others met |
| PublicationStore.Checkout.BuildTree | src/runner/dvc_git_helper.py:1260-1317 | the temporary index yields the staged tree of the theorems |
| PublicationStore.Checkout.MergeLock | src/runner/dvc_git_helper.py:1214-1258 | the local lock becomes the planned one, and a conflict leaves it |
| PublicationStore.Checkout.PushWithRetries | src/runner/dvc_git_helper.py:1161-1373 | history, workspace and result equal those of the rounds played one after the other until one decides |
| PublicationStore.Checkout.SyncBeforeNode | src/runner/dvc_git_helper.py:1461-1502 | the local lock becomes the synchronised one and exactly the allowed outputs in which HEAD and the branch differ become the branch's or vanish; an error leaves everything |
| PublicationStore.SyncBringsAllowedFiles | src/runner/dvc_git_helper.py:1480-1500 | a checkout that holds HEAD's files has the branch's content at every allowed path afterwards; other paths and those in which HEAD and the branch agree keep what they hold |
| StageGraph.ResolveTargets | src/planner/stage_plan.py:167-190 | the resolved set is each target itself or its foreach instances, and an error names a target that matches nothing |
| StageGraph.MatchesExactly | src/planner/stage_plan.py:167-190 | a target stands for the stage of that name or else for the stages named by it, an at sign and an item |
| StageGraph.ClosureIsLeast | src/planner/stage_plan.py:192-195 | the closure contains the targets, is closed under upstream stages, and lies in every such set |
| StageGraph.RestrictKeepsStages | src/planner/stage_plan.py:197-210 | restriction to a closed set keeps each stage with all its upstream stages |
| Staleness.PropagateStaleness | src/planner/stage_plan.py:406-445 | the loop over a topological order leaves every stage with the verdict its rule gives from the final verdicts of its upstream stages |
| Staleness.StaleIffReached | src/planner/stage_plan.py:406-445 | a non-frozen stage is stale if and only if a walk from an intrinsically stale stage reaches it whose start and inner stages are neither frozen nor always_changed |
| Staleness.ReasonsEndAtIntrinsic | src/planner/stage_plan.py:436-441 | following the upstream reasons back from a stale stage ends at an intrinsically stale one |
| Staleness.NoneBeforePassesOn | src/planner/stage_plan.py:436-441 | the upstream stage that a reason names is the first that passes staleness on |
| Staleness.VerdictsAgree | src/planner/stage_plan.py:411-445 | verdicts do not depend on the topological order nor on stages outside an upstream-closed part |
| Staleness.PriorityUnique | src/planner/stage_plan.py:447-467 | a stage has only one priority |
| Staleness.PriorityStep | src/planner/stage_plan.py:457-466 | one more than the best downstream priority is the length of the longest chain of stale stages |
| Staleness.PriorityTable.BestDownstream | src/planner/stage_plan.py:457-464 | the maximum over the stale downstream stages, attained by one of them, with the memo kept right |
| Staleness.PriorityTable.GetPriority | src/planner/stage_plan.py:450-467 | the memoised recursion returns the number of stages on the longest downstream chain of stale stages |
| StagePlan.AssemblePlan | src/planner/stage_plan.py:406-526 | one node per stage in topological order with its dependencies, the reason that the verdicts give it and its longest-chain priority, stale if and only if staleness reaches it |
| StagePlan.ComputeStagePlan | src/planner/stage_plan.py:167-532 | a plan of exactly the target closure, stale where staleness reaches, if every target matches a stage, and otherwise an error that names one that matches none |
| StagePlan.PriorityRange | src/planner/stage_plan.py:447-470 | priority is zero if and only if the stage is not stale, and at most the number of stages |
| StagePlan.PriorityFalls | src/planner/stage_plan.py:447-470 | priority falls strictly along every edge between stale stages |
| StagePlan.PlanFile.FilterToStages | src/planner/stage_plan.py:535-621 | the nodes become exactly the filtered ones for the closure of the targets, in both modes as in the next two rows; an unknown target, which is named, leaves them |
| StagePlan.FilterMarks | src/planner/stage_plan.py:602-617 | marking keeps all nodes in their order with names and dependencies; the selected ones are as they were, every other is not stale, has priority zero and the filter as its reason |
| StagePlan.FilterDrops | src/planner/stage_plan.py:618-619 | pruning keeps exactly the selected nodes, unchanged and in their order |
| StagePlan.SelectedNodeAgrees | src/planner/stage_plan.py:535-621 | a node planned directly and one kept by the filter agree on dependencies, staleness and reason, and the direct priority is at most the other |
| StagePlan.SameSelection | src/planner/stage_plan.py:167-210 | both ways select the same closure |
| StagePlan.FilterCommutesWithPlanning | src/planner/stage_plan.py:535-621 | filtering the full plan and planning the closure give the same nodes in that sense, in both directions |
| PlannedJob.PlannedJobIsAcyclic | src/planner/stage_plan.py:509-526 | the rows made of a plan form a closed acyclic job with the plan's order as topological order |
| PlannedJob.PlannedJobSkipsUpToDate | src/scheduler/persistence.py:374-412 | when the job of a plan starts, the skipped rows are exactly those of frozen stages and of stages that staleness does not reach, and the job is completed at once if and only if all are |
| PlannedJob.FilteredJobRunsSelection | src/planner/stage_plan.py:602-617 | when the job of a filtered plan starts, it has all rows, and those to run are exactly the selected stages that staleness reaches |
| PlannedJob.PlannedJobNeverSticks | src/scheduler/persistence.py:415-480 | such a job, from any statuses and after enough passes in any orders, is completed, can go on, or has a failed node |
| TopoSort.NeededNodes | src/runner/dvc_iterative_repro.py:97-105 | the queue visits exactly the targets and the nodes from which a target can be reached |
| TopoSort.InDegrees | src/runner/dvc_iterative_repro.py:107-119 | each node's counter is the number of kept edges into it, repeated edges counted |
| TopoSort.KahnSort | src/runner/dvc_iterative_repro.py:121-138 | distinct nodes, each after all its predecessors, in the order of readiness and, among nodes that are ready with the same predecessor, of names; shorter than the node set if and only if there is a cycle |
| TopoSort.OrderIsUnique | src/runner/dvc_iterative_repro.py:121-138 | there is only one such list of all nodes, so it depends on the set of edges and not on how they are listed |
| TopoSort.SortSorts | src/runner/dvc_iterative_repro.py:122-129 | the ready nodes and the successors are visited in name order, none lost or doubled |
| TopoSort.BackwardsForever | src/runner/dvc_iterative_repro.py:134-136 | nodes that each have a predecessor among them contain a cycle |
| TopoSort.OrderedIsAcyclic | src/runner/dvc_iterative_repro.py:121-138 | an order with predecessors first rules out a cycle |
| TopoSort.GetDvcDag | src/runner/dvc_iterative_repro.py:35-138 | every needed node exactly once; if the kept edges have no cycle, predecessors first and in the order of readiness and name; the empty list for an empty graph |
| Handoff.RestoreThenSave | src/runner/local_workspace.py:30-94 | a restored checkpoint is saved as it was if and only if the workspace had nothing of the node that the checkpoint does not replace |
| Handoff.RestoreKeepsOtherNodes | src/runner/local_workspace.py:65-94 | restoring one node changes nothing that another node would save |
| HandoffRuns.RunsAreSound | src/runner/local_workspace.py:104-176 | in every run, with crashes, failed uploads and several runners of a node, each pending marker has an archive and a runner record of its node |
| HandoffRuns.MarkedAtRiskIffMarkedDuringRestore | src/runner/local_workspace.py:104-133 | a step exposes a marked checkpoint to a download if and only if it writes a marker while a download of that node is under way |
| HandoffRuns.UnmarkedArchiveIsReplaced | src/runner/local_workspace.py:152-154 | a crash between archive and marker lets another runner's restore replace the newer archive, while the worktree keeps it |
| HandoffSafety.StepKeepsSafe | src/runner/local_workspace.py:104-176 | with one runner per node, each file operation keeps: retained, sent and delivered checkpoints are what the worktree saves |
| HandoffSafety.HandoffIsSafe | src/runner/local_workspace.py:104-159 | in such runs no download replaces a marked archive, and a record disappears only after the headnode has taken the retained archive, which is what the worktree saves |
| HandoffSafety.InterruptedWorkSurvives | src/runner/local_workspace.py:140-176 | work of a stopped runner stays in its worktree and record until the headnode has received exactly it |
| HandoffCalls.PreserveIsRun | src/runner/local_workspace.py:140-159 | a whole call of preserve_runner_record, returning or raising, is a run of the protocol |
| HandoffCalls.RestoreIsRun | src/runner/local_workspace.py:104-133 | so is a restore that returns |
| HandoffCalls.SecondRecordLosesWork | src/runner/local_workspace.py:150-159 | from every state in which a stopped runner holds the node of a working one, a run drops the working one's record and worktree with its work undelivered |
| HandoffCalls.FailureKeepsCheckpoint | src/runner/local_workspace.py:162-176 | the calls for the pending records raise only for a runner whose upload fails, and its marker, archive and record stay |
| HandoffCalls.SoundIsRecoverable | src/runner/local_workspace.py:140-176 | every reachable state meets what the next two rows ask: each marker has an archive and a record |
| HandoffCalls.PendingAreDelivered | src/runner/local_workspace.py:162-176 | if all uploads succeed, no marker is left for review, every marked checkpoint is delivered, and no record of an unmarked node is touched |
| HandoffCalls.PendingReturnsIffReached | src/runner/local_workspace.py:162-176 | with one record a node, the call returns if and only if every marked checkpoint can be uploaded |
| HandoffCalls.PendingReturnsExactly | src/runner/local_workspace.py:162-176 | from any files: the call returns if and only if every marker has an archive and the record of a runner whose upload succeeds, and then no marker is left |
| HandoffCalls.RestoreReturnsExactly | src/runner/local_workspace.py:104-133 | a restore returns if and only if the archive is marked or the headnode answers, and the checkpoint to use holds only declared files; otherwise no worktree is touched |
| HandoffCalls.RestoredHolds | src/runner/local_workspace.py:104-133 | a restore that returns leaves every file and the entry of the marked archive, else of the headnode's copy, else of the retained one, and everything else in the worktree as it was |
| HandoffCalls.NextRunnerResumes | src/runner/local_workspace.py:104-159 | after a full handoff the next runner's restore returns if and only if the upload failed or the headnode answers, and then its worktree saves exactly what the interrupted one saved if and only if the start commit tracks nothing of the node that the interrupted run had lost |
| HandoffStore.WorkerDisk.PreserveRunnerRecord | src/runner/local_workspace.py:140-159 | files, marker, record, headnode and outcome are those of the call in the theorems |
| HandoffStore.WorkerDisk.PreservePendingRunners | src/runner/local_workspace.py:162-176 | the loop over the records is the sequence of calls in the theorems, ended by the first that raises |
| HandoffStore.WorkerDisk.RestoreRemoteNode | src/runner/local_workspace.py:104-133 | archive, worktree and outcome are those of the restore in the theorems |
| CasFetch.ExpectedOfPlain | src/runner/fetch_cas_dependencies.py:217-221 | a digest and the same digest with the manifest suffix stand for the same content hash |
| CasFetch.DownloadYieldsMatch | src/runner/fetch_cas_dependencies.py:223-309 | a download succeeds if and only if the cached object matches already or some answer does, and what it leaves matches; a matching object is never replaced |
| CasStore.NothingMatchesBefore | src/runner/fetch_cas_dependencies.py:232-300 | the answer taken is the first that matches |
| CasFetch.BatchGrows | src/runner/fetch_cas_dependencies.py:447-466 | a batch does not depend on the order in which its downloads run |
| CasFetch.BatchIsSafe | src/runner/fetch_cas_dependencies.py:441-519 | after a batch each object is an old one or matches its name, matching ones are untouched, and every hash that did not fail is there |
| CasReport.FetchIsSafe | src/runner/fetch_cas_dependencies.py:341-537 | the same for a whole fetch, successful, failed or raising |
| CasReport.SuccessIsComplete | src/runner/fetch_cas_dependencies.py:441-566 | success leaves every named hash, parent manifest and entry of a top-level manifest in the cache, matching |
| CasReport.CompleteNeedsNothing | src/runner/fetch_cas_dependencies.py:223-227 | on a complete cache a fetch succeeds and changes nothing, whatever the peers answer |
| CasReport.MissingDeps | src/runner/fetch_cas_dependencies.py:500-523 | a dependency is named, once, if and only if its own, parent or nested hash failed |
| CasReport.ReportedButPresent | src/runner/fetch_cas_dependencies.py:500-537 | a reported hash is in the cache and matches if and only if it failed in the first batch and arrived in the second |
| CasReport.FailureNamesSomething | src/runner/fetch_cas_dependencies.py:500-537 | a failed fetch names a dependency whenever every parent manifest is itself a dependency |
| CasItems.DepsAreWantedItems | src/runner/fetch_cas_dependencies.py:377-403 | the dependencies are exactly the bare hashes and the records that are stage outputs, with their paths, sources and parents |
| CasItems.SuccessFetchesItems | src/runner/fetch_cas_dependencies.py:377-566 | success leaves the hash of every wanted item, its parent manifest and each entry of its manifest in the cache, matching |
| CasItems.ReportNamesItemsExactly | src/runner/fetch_cas_dependencies.py:500-537 | the report names, by path or else by hash, exactly the wanted items of which the hash, the parent manifest or an entry failed |
| CasItems.GivenSourcesAreAsked | src/runner/fetch_cas_dependencies.py:405-432 | what the caller lists and what an item brings is asked for its hash, and shared between an item and its parent manifest |
| CasUnnamed.NamesNothingExactly | src/runner/fetch_cas_dependencies.py:500-537 | a fetch names no dependency if and only if all it was asked for arrived and no dependency's own manifest lists what failed |
| CasUnnamed.UnnamedParentFails | src/runner/fetch_cas_dependencies.py:468-537 | for any dependencies that name digests, with a parent manifest that is none of them, some fetch finds every hash asked for, fails because of a sibling, and names nothing |
| CasUnnamed.FailureNamesSomethingExactly | src/runner/fetch_cas_dependencies.py:500-537 | with digests of 32 digits, failed fetches of some dependencies always name one if and only if every parent manifest is a dependency or some name stands for no digest |
| CasChains.ResolvedExactly | src/runner/fetch_cas_dependencies.py:468-497 | a successful fetch resolves manifests recursively if and only if what lies beyond the first level matched in the cache before |
| CasChains.NamedManifestsResolve | src/runner/fetch_cas_dependencies.py:351-354 | the promised recursive resolution holds whenever every manifest that a named one lists is named too |
| CasChains.NestedManifestStaysClosed | src/runner/fetch_cas_dependencies.py:468-497 | for any unnamed nested manifest with an absent entry, a fetch that finds the first level complete succeeds, changes nothing, and leaves the entry absent |
| CasChains.DeeperEntryStaysAbsent | src/runner/fetch_cas_dependencies.py:468-497 | however a fetch came to succeed, an absent entry that only unnamed manifests list stays absent |
| CasStore.MergedAreGiven | src/runner/fetch_cas_dependencies.py:405-432 | only sources that the caller or a dependency names are asked, each once per hash, and a dependency's own are among its candidates |
| CasStore.MergeSources | src/runner/fetch_cas_dependencies.py:405-432 | the in-place merging of candidate lists is the one of that lemma |
| CasStore.Cache.DownloadSingleObject | src/runner/fetch_cas_dependencies.py:195-309 | only the object of the hash may change, to the first matching answer, and success is as in the lemma above |
| CasStore.Cache.DownloadAll | src/runner/fetch_cas_dependencies.py:449-466 | downloads in an arbitrary order amount to one batch |
| CasStore.Cache.InspectManifests | src/runner/fetch_cas_dependencies.py:468-485 | the hashes found are exactly the nonempty entries of the fetched manifests, each entry gets its manifest's sources, and an unreadable manifest is detected |
| CasStore.Cache.FetchDependencies | src/runner/fetch_cas_dependencies.py:341-537 | the whole method is a fetch in the sense of the theorems and asks given sources only |
| TieredGc.CollectSorts | src/runner/gc_orchestrator.py:933-952 | the eligible projects, those with invalid names skipped, come out once each, least recently used first |
| GcPlan.CollectIsStable | src/runner/gc_orchestrator.py:951-952 | projects of the same age stay in the order of the registry |
| GcPlan.PlanActionsExactly | src/runner/gc_orchestrator.py:119-165 | which actions are planned, in terms of the registry, the window, what docker reports, the directories and the caches |
| GcPlan.PlanIsSorted | src/runner/gc_orchestrator.py:951-1141 | of two planned actions the first is of an earlier tier, or of the same tier and on a project executed no later |
| GcPlan.TakenExactly | src/runner/gc_orchestrator.py:519-597 | a project takes its directory with all below it, its base volume and those that continue it with a dash, and nothing else |
| GcNames.ValidNameExactly | src/runner/gc_orchestrator.py:266-294 | a name is accepted if and only if, stripped, it is not ".", has no backslash, no empty component and no ".." |
| GcNames.PromiseKeptExactly | src/runner/gc_orchestrator.py:266-294 | a name as documented is accepted, and an accepted one is as documented if and only if no component is "." |
| GcNames.DotsAreAccepted | src/runner/gc_orchestrator.py:279-294 | a name of two "." components is accepted |
| GcSafety.PlanTouchesEligible | src/runner/gc_orchestrator.py:933-1141 | every action on a project is on an idle, unprotected one, and the third tier acts on a cache only if no workspace of its repository is protected |
| GcSafety.MountedIsNeverTaken | src/runner/gc_orchestrator.py:119-138 | no volume or directory that docker reports in full as mounted is taken, not even through another project's name |
| GcSafety.DirectorySurvivesExactly | src/runner/gc_orchestrator.py:1115-1141 | after the whole plan a project directory is left if and only if no eligible existing project is it or contains it |
| GcSafety.VolumeSurvivesExactly | src/runner/gc_orchestrator.py:519-570 | and a volume if and only if it is not, by prefix, one of an eligible project's |
| GcSafety.ContinuedNameIsTaken | src/runner/gc_orchestrator.py:519-561 | a name continued with a slash or a dash falls under the shorter project |
| GcSafety.ContinuedProjectIsLost | src/runner/gc_orchestrator.py:519-597 | such a project loses directory and volumes with an eligible shorter one, protected or not |
| GcCaches.CacheSurvivesExactly | src/runner/gc_orchestrator.py:1036-1141 | after the whole plan a cache is left if and only if it is not that of an eligible project whose repository is unused, and no eligible existing project is or contains its project |
| GcCaches.UsedCachesAreKeptExactly | src/runner/gc_orchestrator.py:1036-1141 | the caches of repositories in use are kept if and only if none of them lies in an eligible workspace on disk |
| GcCaches.RunningWorkspaceLosesCache | src/runner/gc_orchestrator.py:586-597 | for any valid name, an idle workspace's cache goes while another workspace of its repository runs |
| GcOrder.WorkspacesGoInLruOrder | src/runner/gc_orchestrator.py:1115-1141 | when a workspace is removed, all earlier tiers are done, and every older eligible workspace had its turn or lay in one that had |
| GcStore.Collector.RunEmergencyGc | src/runner/gc_orchestrator.py:857-1146 | the actions are the shortest start of the plan after which the target is reached, each taken below the target; none if docker cannot be asked or the current project cannot be marked, only the prune without a readable registry |
| GcStore.Collector.RunTiers | src/runner/gc_orchestrator.py:955-1141 | the tiers follow the plan of the theorems, and a workspace counts as deleted exactly if its removal was tried |
| TerminalOutput.AnyStream | scripts/tmate_log_filter.py:32-213 | for every stream the screen keeps 24 rows of 160 cells with the cursor inside, and any 101 consecutive unforced lines are pairwise different |
| TerminalOutput.FlushMarksRows | scripts/tmate_log_filter.py:83-92 | after a flush the shadow of each flushed row shows what the row shows |
| TerminalOutput.ScrollKeepsShadow | scripts/tmate_log_filter.py:32-41 | scrolling keeps shadow and rows aligned: the next flush of the rows that moved up prints nothing |
| TerminalOutput.ForcedOutputIsInput | scripts/tmate_log_filter.py:148-223 | for printable lines of any length, each ended by CR LF, the forced output is exactly the rows that they take, stripped and filtered, in order and each once; lines shorter than the screen is wide are their own rows |
| TerminalOutput.DroppedExactly | scripts/tmate_log_filter.py:43-69 | the lines that are never printed are exactly the blank ones, status bars and the listed messages and fragments; every other shows stripped |
| TerminalDuplicates.UnforcedOutputIsDedup | scripts/tmate_log_filter.py:43-92 | for printable lines the unforced output is what their rows show, each kept unless it is among the last hundred kept before it |
| TerminalDuplicates.NoDuplicatesIffNothingShown | scripts/tmate_log_filter.py:4-6 | the whole output of printable lines has no duplicate if and only if nothing is shown: each shown line is printed unforced and forced |
| TerminalInvariants.StreamKeeps | scripts/tmate_log_filter.py:148-213 | a property that scrolls, flushed rows and silent changes keep holds after every character stream |
| TerminalShadow.ShadowWasPrinted | scripts/tmate_log_filter.py:32-92 | for every stream, what the shadow holds for a row was printed unforced or is filtered out |
| TerminalCommands.NumbersOfRender | scripts/tmate_log_filter.py:97-104 | parsing decimal parameters separated by semicolons gives them back |
| TerminalCommands.ParametersSeparate | scripts/tmate_log_filter.py:97-104 | a semicolon separates parameters, and an empty one counts as zero |
| TerminalCommands.MovesByParameter | scripts/tmate_log_filter.py:111-122 | the relative cursor sequences move by their parameter, one if it is zero, stop at the edges, and keep cells and forced output |
| TerminalCommands.GoesToPosition | scripts/tmate_log_filter.py:106-110 | the absolute ones go to the row and column they name |
| TerminalCommands.MovesFlush | scripts/tmate_log_filter.py:145-146 | after a move to another row the rows above the cursor count as printed |
| TerminalCommands.UnknownCommands | scripts/tmate_log_filter.py:94-146 | any other command leaves cells, cursor, output and shadow as they were |
| TerminalCommands.ErasesExactly | scripts/tmate_log_filter.py:123-139 | the erase sequences blank exactly the cells right of the cursor, left of it, of its row, or all, and only clearing the screen moves the cursor |
| TerminalCommands.ErasedIsForgotten | scripts/tmate_log_filter.py:131-139 | an erased row and a cleared screen count as not printed; erasing prints nothing |
| TerminalCommands.ScrollsExactly | scripts/tmate_log_filter.py:140-143 | scrolling by n rows forces out what the first n rows show and moves the others up |
| TerminalCommands.ControlCharacters | scripts/tmate_log_filter.py:176-184 | carriage return, backspace and tab move the cursor as named, other control characters do nothing |
| TerminalCommands.EscapesAreSkipped | scripts/tmate_log_filter.py:197-206 | character set designations and other escapes leave the screen as it was |
| TerminalRedraw.RedrawnLinesAreReplaced | scripts/tmate_log_filter.py:94-213 | lines drawn again over the last rows, after moving up and erasing each, replace these in the forced output |
| TerminalFilter.VirtualTerminal.ApplyCsi | scripts/tmate_log_filter.py:94-146 | parsing, the eight commands and the flush change the screen as in the theorems |
| TerminalFilter.VirtualTerminal.FlushCompletedLines | scripts/tmate_log_filter.py:83-92 | the loop prints and marks the rows above the cursor as in the theorems |
| TerminalFilter.VirtualTerminal.Feed | scripts/tmate_log_filter.py:166-213 | one character in each of the four states, as in the theorems |
| TerminalFilter.VirtualTerminal.Run | scripts/tmate_log_filter.py:148-223 | the whole loop and the final dump print exactly the output that the theorems are about |

## Left out

* Git, DVC, docker, SQLite, HTTP and the file system are abstract state or parameters: commit sequences with
  compare-and-swap, maps from path to content, rows, replies of peers, and whether an upload or a removal succeeds.
* YAML and JSON parsing, path normalisation, stripping and lower-casing of hashes, and the splitting of target lists:
  the model starts from parsed and normal data. The edge lines of `dvc dag` are taken as parsed. Hashes contain no
  slash.
* The comparison of `dvc.lock` texts in the push and the sync is a comparison of their parsed contents; the other
  top-level keys of `dvc.lock` are merged in LockMerge but left out of the publication protocol.
* PublicationStore.Checkout.SyncBeforeNode: the report about other people's commits is left out, and a restored file
  replaces whatever lies at its path. In PublicationRuns the merge base of a sync is any lock that the worker's own
  contains, which covers the start commit and the worker's own pushed commits.
* The push with `pull --rebase`, and the initial push to a branch that does not exist.
* Why a stage is stale by itself (`src/planner/stage_plan.py:226-404`) is an input of the planner.
* Whether a failure is retryable (`src/scheduler/persistence.py:747-772`) is an input of the retry step. A pass reads
  its rows once; two passes running at the same time on one job are not modelled.
* DagRuns.RunsKeepInvariant: assumes that a report arrives while its node runs or is being preempted;
  DagOrder.LateReport says what a later one does.
* PublicationRuns.PublicationIsSafe: assumes a start commit with a lock, results that differ from it, and no two
  results that change one entry differently; Publication.NoLostUpdateExactly and LockAlgebra.FoldSucceedsIffCompatible
  show that each of these is needed.
* HandoffSafety.HandoffIsSafe: assumes one runner of a worker per node; without it HandoffCalls.SecondRecordLosesWork
  and HandoffRuns.MarkedAtRiskIffMarkedDuringRestore show what goes wrong. HandoffRuns.RunsAreSound needs no such
  assumption.
* HandoffSafety.InterruptedWorkSurvives: does not cover the removal of a worktree by anything but the executor.
* Symbolic links, unsafe paths and partially written archives in the handoff; records of other submissions.
* CasStore.Cache.FetchDependencies: thread pools become an arbitrary sequential order, and the checkout after the
  fetch is not modelled. A two-character name, which is a directory of the cache in the code, is an ordinary absent or
  present object in the model; no digest is that short.
* GcStore.Collector.RunEmergencyGc: free space is a function of the number of actions taken, so changes by other
  programs between two actions are seen at the next action only; dry-run and transfer modes are not modelled.
* GcSafety.MountedIsNeverTaken: covers mounts whose names `docker ps` prints in full; the model does not say what
  becomes of a mount whose name docker has cut short in that output.
* What one cleanup of history or temporary files removes inside a project, and which images are unused.
  `get_base_repo_key` is an arbitrary function: the results hold for every way to group workspaces into repositories.
* TerminalFilter.VirtualTerminal.ApplyCsi: parameters, like the status bar's leading number, are made of ASCII digits;
  Python's `isdigit` and `\d` accept more characters.
* The decoding of bytes in the log filter.
* Scheduling order, resource flags, log streaming, registration, redaction, retention, and the command-line entry
  points.
