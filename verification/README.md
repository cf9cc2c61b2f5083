# A verified model of oxidizedgraph

This project models the decision-making cores of oxidizedgraph and proves what
each of them keeps over every input, every run or every history of calls. Check it
with `dafny verify dfyconfig.toml`.

* **Planning.** `DepGraph` holds paths, cycles and reachability and the two graph
  searches. `Plan` is the epic plan with its blocking fixpoint and the injection of
  recovery tasks. `Scheduler` selects and ranks ready tasks. `SchedulerNode` is one
  execution of the scheduler node on the shared context, and `Replanning` says when
  it replans and what it counts. `PlanRun` is the state
  machine: the node is executed, and running tasks complete or fail, in any
  interleaving, with generated and registered recoveries. `RegisteredRecoveries`
  gives a caller's condition for the registered ones. `Coordinator` is the
  cross-repository twin, which latches blocks.
* **Execution.** `Graph` compiles a workflow graph with an edge index and follows
  edges. `Execution` gives runs one meaning (`Step`, `Run`, `Trace`) and the plain
  runner. `CheckpointStore` is the two-map checkpoint store and the list it stands
  for. `CheckpointRunner`, `StreamingRunner` and `TracedRunner` are the three other
  runners; `RunnerAgreement` puts the four side by side.
* **Diff.** `EdgeDiff`, `NodeDiff` and `Diff` compare two compiled graphs.
* **Retrieval.** The inverted index over repository documents.
* **Parallel.** Joining subgraphs that finish in any order, and merging them.
* **Audit.** The hash chain of the audit log.
* **Roles**, **Manifest** and **ManifestPrinting.** Role tags, the manifest parser
  and validator, and the printer with its round trips.

`Wrappers`, `Text`, `Sequences`, `Sorting` and `AgentStates` hold what several of these
share: options and results, decimal numerals, string order and generated recovery ids, how
sequences split and join, the standard stable sort, the agent state and node outputs.

Objects whose methods change fields are classes whose methods are proved against
functions of the old state; loops are methods with invariants; the theorems are
lemmas about those functions. Node executors, routers, state mappers, mergers,
tokenisers, validators, failure classification and the hash are arbitrary functions
given as parameters. Where the program iterates over a hash map or set, the model
iterates in an arbitrary order.

## Model

| member | source | states |
|---|---|---|
| DepGraph.Dfs | src/planning/scheduler.rs:48-62 | a search step that finds nothing leaves every finished id off all cycles; it terminates because the unvisited ids shrink; a positive answer names a real cycle |
| DepGraph.HasCycles | src/planning/scheduler.rs:45-70 | true exactly when some id reaches itself by a non-empty dependency path, dangling ids being leaves; false exactly when a topological rank exists |
| DepGraph.AcyclicIffRanked | src/planning/scheduler.rs:45-70 | no cycle exactly when some rank strictly falls along every dependency |
| DepGraph.TransitiveDependencies | src/planning/scheduler.rs:78-89 | the worklist visits exactly the ids reachable by a non-empty path |
| DepGraph.LeadsToLeast | src/planning/plan.rs:170-194 | what leads to a bad id through allowed ids is the least set closed under that rule |
| Plan.EpicPlan.AddTask | src/planning/plan.rs:117-120 | the plan with that one task inserted or replaced, keys still the tasks' ids |
| Plan.EpicPlan.UpdateTaskStatus | src/planning/plan.rs:133-155 | answers whether the task exists; sets its status and leaves exactly the propagated plan |
| Plan.EpicPlan.PropagateBlockedStatus | src/planning/plan.rs:158-195 | whatever the map order, ends with exactly the doomed tasks blocked, other blocked tasks pending, all else unchanged; terminates because pending and running tasks shrink |
| Plan.EpicPlan.BlockRound | src/planning/plan.rs:170-194 | a round that changes nothing has reached the fixpoint, any other blocks one more active task |
| Plan.DoomedUnfold | src/planning/plan.rs:179-188 | a task is doomed exactly when it may be blocked and depends on a failed or doomed task |
| Plan.PropagationIsLeast | src/planning/plan.rs:158-195 | the blocked set is closed under the blocking rule and contained in every closed set |
| Plan.PropagationIdempotent | src/planning/plan.rs:159-163 | propagating twice is propagating once |
| Plan.EpicPlan.InjectRecoveryTask | src/planning/plan.rs:199-225 | false and unchanged for an unknown task; otherwise the recovery takes over its dependencies, the task waits for the recovery alone, and blocks are recomputed |
| Plan.InjectionAcyclicIff | src/planning/plan.rs:199-225 | injection keeps an acyclic plan acyclic exactly when the recovery is another task that the failed one does not reach |
| Plan.FreshInjectionAcyclic | src/planning/plan.rs:199-225 | a recovery with a new id keeps an acyclic, complete plan acyclic |
| Plan.ReusedRecoveryCloses | src/planning/plan.rs:206-219 | a recovery task used a second time for the same failure always closes a cycle, since it inherits itself |
| Scheduler.NextTasks | src/planning/scheduler.rs:16-42 | lists each pending task whose dependencies all exist and are completed, once, and nothing else |
| Scheduler.DownstreamCounts | src/planning/scheduler.rs:75-93 | the count of every id is the number of tasks that transitively depend on it |
| Scheduler.PrioritizeTasks | src/planning/scheduler.rs:74-103 | a permutation sorted by descending number of dependents that keeps tied ids in their order |
| Scheduler.DependencyCountsMore | src/planning/scheduler.rs:74-103 | on an acyclic plan a dependency has strictly more dependents than what depends on it |
| Scheduler.DependenciesFirst | src/planning/scheduler.rs:72-73 | in a prioritised list every task comes after each listed task it transitively depends on |
| SchedulerNode.FailedTasks | src/planning/node.rs:155-160 | collects each failed task once, in an arbitrary order |
| SchedulerNode.HandleFailures | src/planning/node.rs:163-269 | the loop over failed tasks computes the same plan, attempts, history and flags as handling them one by one by the spec of a single failure |
| SchedulerNode.Settle | src/planning/node.rs:288-306 | with nothing ready the answer is complete, blocked or a bare continue, by what the plan holds |
| SchedulerNode.StartNext | src/planning/node.rs:309-322 | starts a ready task that at least as many tasks wait for as for any other ready one |
| SchedulerNode.Execute | src/planning/node.rs:138-323 | one execution is a step of the nondeterministic transition relation, including both error answers and the unsaved plan on replan_needed |
| SchedulerNode.ErrorsAnswered | src/planning/node.rs:143-152 | without a plan and with a cyclic one the two errors, nothing changed; otherwise an answer |
| SchedulerNode.PlanDecides | src/planning/node.rs:286-322 | with nothing failed, by statuses and dependencies alone: a pending task whose dependencies are all completed, and which the most tasks wait for, is started and nothing else changed; else complete when all are, blocked when one is, or a bare continue |
| Replanning.ReplanIff | src/planning/node.rs:162-284 | the node replans exactly when every failed task has attempts left, or without self-healing a registered recovery, judged before the execution; otherwise the plan stays as it is |
| Replanning.Limits | src/planning/self_healing.rs:42-92 | a class without a policy allows 3 attempts for compile, 2 for test, 2 for runtime, 4 for integration and 3 for unknown failures; a configured policy replaces that |
| Replanning.LimitsDecide | src/planning/node.rs:170-284 | with self-healing, replan_injected exactly when every failed task has fewer attempts stored than the policy, or else the default, of the class of its stored error allows |
| Replanning.PolicyDecides | src/planning/node.rs:172-190 | with n configured for every class, replan_injected exactly when every failed task has fewer than n attempts stored |
| Replanning.RegistryDecides | src/planning/node.rs:258-268 | without self-healing, replan_injected exactly when every failed task has a registered recovery; nothing is counted or recorded |
| Replanning.RecordsTell | src/planning/node.rs:210-257 | each record tells the failed task, its stored error and class, the attempt that is now stored, and whether one more was allowed |
| Replanning.AttemptsUsed | src/planning/node.rs:188-192 | each failed task with attempts left uses exactly one, whether or not the node replans, and no other task does |
| Replanning.HistoryGrows | src/planning/node.rs:210-258 | self-healing adds exactly one record per failed task, with the attempt and decision it deserves, independent of the other failures |
| PlanRun.ReplanIsExact | src/planning/node.rs:170-279 | on replan_injected, whatever the order of the failures and wherever the recoveries come from, if none of them is in the plan yet: nothing failed or blocked, one more task per failure, every recovery ready, one attempt counted for each failure when self-healing, everything else as before |
| PlanRun.RecoveryTakesOver | src/planning/node.rs:194-232 | the recovery is the registered task, or else recovery_<task>_<attempt>; it is new and has the dependencies of the failed task, which is pending, without its error, and waits for it alone |
| PlanRun.RecoveriesReady | src/planning/node.rs:199-232 | every injected recovery can start at once |
| PlanRun.StepKeeps | src/planning/node.rs:138-323 | every schedule, completion or failure keeps the invariant and the balance of started tasks, and stops no other running task; injected registered recoveries must be new |
| PlanRun.RunSafety | src/planning/node.rs:138-323 | at every point of every run that uses each registered recovery at most once, the plan is acyclic and dependency-closed, started tasks have all dependencies completed, and a task is blocked exactly when it waits for a failure |
| PlanRun.RunProgress | src/planning/node.rs:138-323 | in each step completed tasks stay completed and a running task keeps running, or becomes completed by its own completion or failed by its own failure; none is ever blocked |
| PlanRun.AttemptsBounded | src/planning/node.rs:188-192 | attempts never exceed the largest limit configured or by default for a failure class, and later generated ids are never in the plan |
| PlanRun.NoStall | src/planning/node.rs:286-306 | with nothing failed and nothing running, all tasks are completed or one is ready |
| PlanRun.RunAnswers | src/planning/node.rs:286-306 | in a run the node never errs, never answers blocked, continues bare only while something runs, and answers complete exactly when all is completed |
| PlanRun.CompleteRunStarts | src/planning/node.rs:286-323 | a run answered complete from n tasks with F failures has started exactly n + 2F tasks and holds n + F |
| PlanRun.StartsBounded | src/planning/node.rs:286-323 | at every point of a run from n tasks with F failures so far, at most n + 2F tasks have been started |
| RegisteredRecoveries.FailingOnceIsEnough | src/planning/node.rs:194-232 | if different tasks have different registered recoveries, all new to the plan, then a run in which no task with one fails twice uses each at most once |
| Text.RecoveryIdInjective | src/planning/node.rs:200 | a generated id determines the failed task and the attempt |
| Coordinator.ChangeGraph.ReadyChanges | src/cicd/coordinator.rs:18-41 | lists each change that can start, once, sorted |
| Coordinator.ChangeGraph.MarkStatus | src/cicd/coordinator.rs:73-87 | sets the status and propagates on a failed CI run only |
| Coordinator.ChangeGraph.PropagateBlocks | src/cicd/coordinator.rs:90-123 | blocks exactly the waiting changes that lead to a failed or blocked one through waiting ones |
| Coordinator.StuckIsDoomed | src/cicd/coordinator.rs:90-123 | when every block is justified, stuck means doomed in the planning sense |
| Coordinator.PropagationsAgreeIff | src/cicd/coordinator.rs:90-123 | the latching propagation agrees with the planning one exactly when every blocked change waits for a failed one |
| Graph.CheckEdges | src/graph.rs:375-387 | finds the first edge with an unknown end, the source checked before the target, and a conditional edge's target not at all |
| Graph.IndexEdges | src/graph.rs:376-393 | every node's index lists exactly the edges leaving it, in order |
| Graph.Compile | src/graph.rs:349-404 | succeeds exactly when the entry point and both ends of every edge exist, a conditional edge's target aside; keeps nodes and edges, adds END, and otherwise reports the first error there is |
| Graph.FirstErrorNamed | src/graph.rs:375-387 | for the first edge with an unknown end the error names its source if that is unknown, and else its target |
| Graph.FindIndexed | src/graph.rs:450-474 | searching the index for a key finds the first edge with that source and key among all edges |
| Graph.GetNextNodeForTransition | src/graph.rs:442-477 | through the index the same answer as a linear scan of all edges, for every key |
| Execution.ResolveNext | src/runner.rs:159-219 | the next node is the one the output names or the scan finds, and END when there is none |
| Execution.Advance | src/runner.rs:134-221 | one pass of the loop is one step: execute, count, choose the next node on the new state |
| Execution.StepMoves | src/runner.rs:134-221 | a step runs the node, counts one iteration and moves to END, to the named node, or along the first edge with the output's key, direct to its target and conditional by its router on the counted state; a bare continue takes the CONTINUE edge, then the unkeyed one; without an edge the run ends |
| Execution.TransitionTakesEdge | src/graph.rs:450-462 | a keyed transition goes where the first edge with exactly that source and key leads |
| Execution.TransitionEnds | src/runner.rs:196-219 | a transition for whose key there is no edge ends the run |
| Execution.StepHalts | src/runner.rs:127-155 | a step halts exactly at an unknown node and at one whose run fails, with that node's error |
| Execution.GraphRunner.RunLoop | src/runner.rs:104-223 | answers as the run of at most `maxIterations` steps does, END checked before the limit, and leaves the state shared in which it ended or stopped |
| Execution.GraphRunner.Invoke | src/runner.rs:89-92 | answers as the run from the entry point does |
| Execution.CompletesIff | src/runner.rs:104-223 | a run completes in a state exactly when a chain of at most `fuel` steps leads there at END |
| Execution.StopsIff | src/runner.rs:104-155 | a run stops with an error exactly when a chain of fewer than `fuel` steps leads to a node that halts with it |
| Execution.RunsOutIff | src/runner.rs:118-125 | a run hits its limit exactly when a chain of `fuel` steps leads short of END |
| Execution.RunSplit | src/checkpoint/runner.rs:177-338 | running on from where a limit stopped is one longer run; a run that ended is not changed by more fuel |
| Execution.TraceFaithful | src/runner.rs:114-132 | at most `fuel` nodes are executed, forming one chain from the start |
| CheckpointStore.SaveRefines | src/checkpoint/memory.rs:44-56 | saving appends to the log exactly when the id is unused or the same checkpoint is saved again |
| CheckpointStore.DeleteRefines | src/checkpoint/memory.rs:107-120 | deleting removes that id from the log |
| CheckpointStore.DeleteThreadRefines | src/checkpoint/memory.rs:122-134 | deleting a thread removes its checkpoints from the log and no others |
| CheckpointStore.QueriesAnswer | src/checkpoint/memory.rs:58-105 | list is the reversed per-thread filter of the log, load its head, load by id finds what was saved |
| CheckpointStore.HistoryRefines | src/checkpoint/memory.rs:44-134 | every legal history of saves and deletes on the two maps is that of one list |
| CheckpointStore.ReusedIdLeaks | src/checkpoint/memory.rs:52-53 | reusing an id in another thread makes the first thread load the other's checkpoint |
| CheckpointStore.LookupAll | src/checkpoint/memory.rs:98-104 | the reversed ids that still have a checkpoint, as a function of the maps |
| CheckpointStore.WithoutCons | src/checkpoint/memory.rs:107-134 | what a delete keeps stays in its order, each as often as before |
| CheckpointStore.MemoryCheckpointer.SaveCheckpoint | src/checkpoint/memory.rs:44-56 | the two maps after a save, and when they still stand for the log |
| CheckpointStore.MemoryCheckpointer.LoadLatest | src/checkpoint/memory.rs:58-75 | the newest checkpoint of the thread in the log, if any |
| CheckpointStore.MemoryCheckpointer.ListThread | src/checkpoint/memory.rs:86-105 | the thread's checkpoints in the log, newest first |
| CheckpointStore.MemoryCheckpointer.History | src/checkpoint/mod.rs:159-167 | the longest beginning of the list within the limit |
| CheckpointStore.MemoryCheckpointer.DeleteCheckpoint | src/checkpoint/memory.rs:107-120 | both maps after the delete, still standing for the log |
| CheckpointStore.MemoryCheckpointer.DeleteWholeThread | src/checkpoint/memory.rs:122-134 | both maps after the delete, still standing for the log |
| CheckpointRunner.CheckpointingRunner.RunLoop | src/checkpoint/runner.rs:177-338 | on any store answers as the plain run and adds exactly the configurations a run saves, stamped with the thread; a store whose maps stood for its log still has that |
| CheckpointRunner.CheckpointingRunner.Invoke | src/checkpoint/runner.rs:121-129 | answers as the plain run from the entry point and adds its saves to any store |
| CheckpointRunner.CheckpointingRunner.Resume | src/checkpoint/runner.rs:133-151 | on any store answers as a run from what loading the thread gives and adds that run's saves; without a checkpoint, says so and changes nothing |
| CheckpointRunner.CheckpointingRunner.ResumeFrom | src/checkpoint/runner.rs:155-174 | on any store answers as a run from the checkpoint the id names and adds that run's saves under its thread; for an unknown id, says so and changes nothing |
| CheckpointRunner.ResumeAnywhere | src/checkpoint/runner.rs:131-174 | resuming from any checkpoint of a run that did not hit its limit ends as that run did |
| CheckpointRunner.SavesAre | src/checkpoint/runner.rs:193-257 | a run saves the nodes it executes, if every node is saved, and then where it ended or hit its limit |
| CheckpointRunner.ResumeKth | src/checkpoint/runner.rs:246-257 | the k-th checkpoint is the configuration after k executions, so resuming it is the rest of the run |
| CheckpointRunner.ResumeAfterLimit | src/checkpoint/runner.rs:213-231 | stopped by limit a and resumed with limit b is one run with limit a + b |
| CheckpointRunner.LatestSave | src/checkpoint/runner.rs:193-257 | which configuration is the last one saved, for each way a run can end |
| CheckpointRunner.InvokeAndResumeFrom | src/checkpoint/runner.rs:121-174 | through the store: whichever of its checkpoints is chosen, resuming a run that did not hit its limit gives its answer again |
| CheckpointRunner.StopAndResume | src/checkpoint/runner.rs:121-151 | through the store: invoke then resume answers as one run with the limits added, and repeats a completed answer |
| StreamingRunner.StoryFollowsProtocol | src/events/runner.rs:168-396 | every event sequence follows the listener's protocol, each exit naming the next entry, and lacks its final event exactly when a node is unknown |
| StreamingRunner.StoryEntersTrace | src/events/runner.rs:261-266 | the entered nodes with their numbers are exactly the executed ones |
| StreamingRunner.StoryOnThread | src/events/runner.rs:168-396 | every event carries the run's thread |
| StreamingRunner.StoryCounts | src/events/runner.rs:192-250 | the final event tells how the run ended, and its number is that of the executed nodes |
| StreamingRunner.StoryAnnounces | src/events/runner.rs:205-290 | a run that saves every node announces one save per executed node and one at END, in order; any other announces none |
| StreamingRunner.AnnouncedAreSaves | src/events/runner.rs:205-290 | the announced saves are the saves of the run, but for the one at the limit |
| StreamingRunner.StreamResumesAfterLimit | src/events/runner.rs:225-253 | a stream with a store that hit limit a goes on from its last save as one run with limit a + b |
| StreamingRunner.StreamingRunner.SaveHere | src/events/runner.rs:270-290 | the configuration is logged, and announced under the id it is stored with |
| StreamingRunner.StreamingRunner.HitLimit | src/events/runner.rs:225-253 | the limit is reported and, with a store, the configuration saved without being announced |
| StreamingRunner.StreamingRunner.RunLoop | src/events/runner.rs:168-396 | answers as the plain run, publishes exactly its story after the start event, and logs exactly what a streaming run saves |
| StreamingRunner.StreamingRunner.FirstTold | src/events/runner.rs:168-188 | the first event of a run names its thread, the graph and the node it starts from |
| StreamingRunner.StreamingRunner.Invoke | src/events/runner.rs:125-133 | the same from the entry point |
| StreamingRunner.StreamingRunner.Resume | src/events/runner.rs:136-165 | errors without a store or a checkpoint publish nothing and leave the store alone; otherwise a restored event and then the run from the newest checkpoint |
| TracedRunner.AttachSetsRunKeys | src/execution/transition.rs:160-169 | the run's ids are set, seed and tags when given, and nothing else of the state changes |
| TracedRunner.OutputRoundTrip | src/execution/replay.rs:87-109 | a record gives back its output exactly when that is not an explicit continue to END |
| TracedRunner.RecordNames | src/execution/transition.rs:95-116 | the names of the five kinds of output in a record, and the target kept beside them |
| TracedRunner.TracedAgrees | src/execution/traced_runner.rs:104-186 | without a validator the traced run is the plain run; with one it is that run or an invalid-state stop |
| TracedRunner.ChecksEveryState | src/execution/traced_runner.rs:131-184 | with a validator a run completes exactly when the plain run does and every state it goes through is valid |
| TracedRunner.TraceIsFaithful | src/execution/traced_runner.rs:162-184 | with any validator, one record per executed node that passed it, telling that step's node, next node, iterations and output, each linked to the next; they reach END, the limit, or exactly the node at which the run stops, be it for an invalid state |
| TracedRunner.TracedRunner.Turn | src/execution/traced_runner.rs:131-184 | a pass logs a record exactly when the step succeeds and its state is valid |
| TracedRunner.TracedRunner.RunLoop | src/execution/traced_runner.rs:104-186 | answers as the checked run and appends exactly its records, also when it fails |
| TracedRunner.TracedRunner.Invoke | src/execution/traced_runner.rs:77-102 | the run starts with the context attached and validated; the result carries the final state and the log |
| TracedRunner.Compare | src/execution/replay.rs:34-75 | lists exactly the mismatches there are, each once and in the order of the steps, and matches exactly when the logs have equal nodes, kinds and next nodes step by step |
| TracedRunner.PlaceTells | src/execution/replay.rs:34-75 | the order of the mismatches: the lengths, then step by step node, kind and next node |
| TracedRunner.MatchPinsOutputs | src/execution/replay.rs:45-69 | steps that compare equal had the same output, up to the key of a transition |
| RunnerAgreement.AllAgree | src/execution/traced_runner.rs:104-186 | on every graph and state the plain, checkpointing and streaming runner return the same result, and the traced runner without a validator returns what the plain runner returns on the state with the run context attached |
| EdgeDiff.GroupByKey | src/diff.rs:337-350 | the groups are exactly the visible edges with that source and normalised key |
| EdgeDiff.DiffCounts | src/diff.rs:386-415 | each shape is removed or added as often as one side has more of it |
| EdgeDiff.DiffGroup | src/diff.rs:363-415 | the changes due on account of one pair of groups, with a replacement only for one edge facing one different edge |
| EdgeDiff.DiffEdges | src/diff.rs:352-421 | every change as often as it is due, sorted by source, key and destination |
| EdgeDiff.ExactPatch | src/diff.rs:352-421 | removed and replaced shapes are the multiset difference before minus after, added and replacing ones after minus before, and together they turn one into the other |
| EdgeDiff.MinimalPatch | src/diff.rs:352-421 | no other patch takes or brings less |
| EdgeDiff.SwapInverts | src/diff.rs:352-421 | swapping the graphs inverts every edge change |
| EdgeDiff.EmptyIff | src/diff.rs:352-421 | no edge changes exactly when the visible edge shapes are the same multiset |
| EdgeDiff.EndEdgesUnseen | src/diff.rs:340-342 | an edge from or to END is invisible wherever it is inserted |
| EdgeDiff.ShapeOfIff | src/diff.rs:188-201 | two edges have one shape exactly when source, destination and kind agree, and the keys up to the two forms of the default |
| EdgeDiff.ShapeCarries | src/diff.rs:188-201 | a shape carries the edge's own source, destination, kind and key, the default without one |
| EdgeDiff.ReplacedIff | src/diff.rs:375-387 | a replacement is listed exactly where the only edge of a source and key faces the only one there, of another shape |
| EdgeDiff.SortedTells | src/diff.rs:419-434 | changes come by source, then key with the default first, then destination |
| NodeDiff.DiffNodes | src/diff.rs:288-323 | exactly the due node changes, one per id, in the order of the ids |
| NodeDiff.PatchesNodes | src/diff.rs:288-323 | applying the changes to the nodes before gives the nodes after |
| NodeDiff.SwapInverts | src/diff.rs:288-323 | swapping the graphs inverts every node change in place |
| NodeDiff.EmptyIff | src/diff.rs:288-323 | no node changes exactly when the node maps are equal |
| Diff.DiffGraphs | src/diff.rs:259-278 | the whole diff, empty exactly when the graphs agree at this layer; the entry point change holds the two entry points |
| Diff.EmptyIffAgree | src/diff.rs:52-57 | emptiness means equal nodes, edge shapes, entry point, name and description |
| Diff.ExchangeSeenIff | src/diff.rs:259-278 | exchanging one edge between user nodes gives an empty diff exactly when source, destination, kind and normalised key are the same |
| Diff.RedirectionSeen | src/diff.rs:352-421 | redirecting one such edge always gives an edge change |
| Diff.NodeChangesTell | src/diff.rs:288-323 | added, removed and redescribed nodes are listed exactly where the graphs' own nodes and descriptions call for it, END aside |
| Diff.NodesInOrder | src/diff.rs:321-322 | node changes come in the order of their ids, one per id |
| Diff.DiffInverts | src/diff.rs:259-278 | the diff the other way round is the inverse in all four parts: node and edge changes inverted, entry point and metadata swapped |
| Diff.MetadataPatches | src/diff.rs:436-453 | absent exactly when nothing changed; read forwards or backwards it turns one graph's metadata into the other's |
| Diff.Summary | src/diff.rs:60-81 | the counts are the numbers of changes of each kind, and the flags tell entry point and metadata changes |
| Diff.SummaryBalances | src/diff.rs:60-81 | the counts account for the difference in size of the two graphs |
| Retrieval.ScoreDocument | src/memory.rs:649-689 | a hit exactly when a query term occurs, with the summed score and the terms that occur, in query order |
| Retrieval.ScoresIff | src/memory.rs:663-682 | a term scores exactly when it is one of the document's indexed terms |
| Retrieval.ScoreAddsUp | src/memory.rs:661-682 | the score is 3 per query term in the path, 4 in the symbol, 1 in the content, and 1 per occurrence there |
| Retrieval.TermScores | src/memory.rs:661-682 | one term scores 3 in the path, 4 in the symbol, 1 and its number of occurrences in the content |
| Retrieval.MatchesIff | src/memory.rs:678-681 | the matched terms are the query's terms that the document contains |
| Retrieval.RepositoryIndex.RemoveDocument | src/memory.rs:193-198 | removes the document with the id if there is one, returns it, and rebuilds an exact index |
| Retrieval.RepositoryIndex.IndexDocument | src/memory.rs:174-183 | replaces any document with the id by the new one at the end and keeps the index exact |
| Retrieval.RepositoryIndex.IndexDocuments | src/memory.rs:186-190 | the same, one after the other |
| Retrieval.RepositoryIndex.RebuildInvertedIndex | src/memory.rs:236-243 | each term lists exactly the positions of the documents that contain it |
| Retrieval.RepositoryIndex.RunQuery | src/memory.rs:201-234 | whatever the order of the candidate set, the answer of a full scan: at most `limit` stored documents, once each, that pass the repository, prefix, score and term filters; by falling score, ties by id; one that passes and is missing is outranked by a full answer |
| Retrieval.AnswerHolds | src/memory.rs:204-224 | every entry is a stored document that passes all filters, with its own score |
| Retrieval.AnswerRanked | src/memory.rs:226-231 | a higher score comes first, ties in the order of the ids, each document once |
| Retrieval.AnswerMisses | src/memory.rs:226-232 | a passing document is only missing from a full answer, all of which outranks it |
| Text.LexIff | src/memory.rs:226-231 | strings are ordered by their first difference, a beginning before what it begins |
| Retrieval.AnswerIgnoresOrder | src/memory.rs:201-234 | the answer depends on the documents only, not on their order |
| Retrieval.EditsKeepLatest | src/memory.rs:174-198 | after any history of edits ids are unique and the documents are the last indexed ones not removed since |
| Retrieval.SameLatestSameAnswers | src/memory.rs:174-234 | histories leaving the same documents leave indexes that answer alike |
| Parallel.Join | src/orchestration/parallel.rs:225-275 | the shortest beginning of the arrivals at which the strategy stops, or all of them |
| Parallel.WaitAllJoinsAll | src/orchestration/parallel.rs:227-232 | WaitAll joins exactly all results |
| Parallel.WaitFirstJoinsOne | src/orchestration/parallel.rs:233-239 | WaitFirst joins exactly the first result |
| Parallel.FailFastJoins | src/orchestration/parallel.rs:240-251 | FailFast joins exactly the results up to and with the first failure |
| Parallel.WaitNJoins | src/orchestration/parallel.rs:252-273 | WaitN joins exactly the results up to the first failure or the n-th completion, whichever comes first |
| Parallel.FailureIsLast | src/orchestration/parallel.rs:240-273 | FailFast and WaitN hold at most one failure, the last result |
| Parallel.WaitNCounts | src/orchestration/parallel.rs:252-273 | without failures WaitN(n) stops at n completions or has all; WaitN(0) takes one result |
| Parallel.FailFastAgrees | src/orchestration/parallel.rs:240-251 | FailFast answers and merges as WaitAll on the same arrivals |
| Parallel.OrderIrrelevant | src/orchestration/parallel.rs:336-352 | results whose merges commute give the same parent in every order |
| Parallel.OrderFreeIff | src/orchestration/parallel.rs:165-172 | with the default mergers the order is irrelevant exactly when no id brings two different contexts |
| Parallel.FirstFailureAt | src/orchestration/parallel.rs:312-322 | the error is that of the first failed result, with its id |
| Parallel.MergesNext | src/orchestration/parallel.rs:332-352 | a completed result is merged after those before it, by the last configuration with its id; any other is left out |
| Parallel.ResultTells | src/orchestration/parallel.rs:180-193 | a subgraph runs from its entry point on its mapped state; it completes in that run's final state and fails if there is none |
| Parallel.WaitAllDeterministic | src/orchestration/parallel.rs:285-358 | with distinct ids and default mergers, success and merged parent are the same for every order of completion |
| Parallel.WaitAllOutcome | src/orchestration/parallel.rs:285-358 | WaitAll, distinct ids and default mergers, any order of completion: an error and the parent untouched unless every subgraph completes, and else each final context under its id and nothing else changed |
| Parallel.ParallelSubgraphs.Execute | src/orchestration/parallel.rs:285-358 | the joined results decide: any failure is an error that leaves the parent untouched, otherwise all are merged in order and the answer is the next node or finish; under WaitAll with distinct ids and default mergers the outcome is that of the subgraphs' own runs, for every order |
| Audit.AuditLog.Append | src/enterprise/audit.rs:137-153 | appends a numbered, linked, hashed record; a verified log stays verified |
| Audit.HashedParts | src/enterprise/audit.rs:58-75 | the hashed text joins the number, the seven fields of the event in their order, the hash before and the time |
| Audit.AuditLog.VerifyChain | src/enterprise/audit.rs:161-186 | true exactly when every record carries its own hash and that of the record before |
| Audit.JoinDetermines | src/enterprise/audit.rs:58-75 | bar-free parts are determined by the hashed text among all lists of that length |
| Audit.HeadDetermines | src/enterprise/audit.rs:161-186 | under a collision-free hash two verified logs with the same last hash are identical if one of them is bar-free |
| Audit.OnlyOneIff | src/enterprise/audit.rs:58-75 | the last hash stands for one log only, exactly when no caller's field holds a bar |
| Roles.ParsedIsWellFormed | src/governance/roles.rs:111-132 | what a tag names is well-formed and prints as the lowercase tag |
| Roles.RoleRoundTripIff | src/governance/roles.rs:58-132 | writing a role as a tag and reading it gives the role exactly for well-formed roles |
| Roles.FormsAgree | src/governance/roles.rs:144-159 | the bare, the `@` and the bracketed form are all read as the role |
| Roles.ReadTells | src/governance/roles.rs:111-132 | what is read of any text: the five names, a custom name of tag characters, or the two errors, by the trimmed lowercase text |
| Roles.TrimIs | src/governance/roles.rs:112-112 | trimming takes exactly the white space off both ends |
| Roles.LayersTaken | src/governance/roles.rs:144-159 | one layer of brackets, or else a leading `@`, is taken off any text before it is read |
| Manifest.ParseBlocks | src/governance/parser.rs:49-80 | the loop computes the blocks of the manifest's lines |
| Manifest.LinesExact | src/governance/parser.rs:53-53 | lines are the pieces between newlines, without a carriage return at their end, and the last piece as it is unless it is empty; joined, the pieces are the text |
| Manifest.TagLineIff | src/governance/parser.rs:94-121 | a line is a tag exactly when, trimmed, it is a readable role name between `<@` and `>` |
| Manifest.BlocksExact | src/governance/parser.rs:49-80 | blocks correspond one to one with tag lines and hold exactly the lines up to the next tag |
| Manifest.ContentIs | src/governance/parser.rs:67-73 | a block's content is its body without leading empty lines, joined |
| Manifest.ContentLosslessIff | src/governance/parser.rs:67-73 | the content is the whole body exactly when the body has at most one line or does not begin with an empty one |
| ManifestPrinting.PrintParsesIff | src/governance/parser.rs:49-121 | printed printable blocks are parsed back to the same roles and contents exactly when no content line ends in a carriage return |
| ManifestPrinting.BlocksPrintable | src/governance/parser.rs:49-121 | blocks parsed from clean lines are printable |
| ManifestPrinting.PrintIs | src/governance/roles.rs:82-86 | a print is, block by block, the bracketed tag, a newline, the content and a newline |
| ManifestPrinting.RoundTripIff | src/governance/parser.rs:49-121 | for every input, parse, print and parse gives the same roles and contents exactly when no parsed content line ends in a carriage return |
| ManifestPrinting.ParsePrintParse | src/governance/parser.rs:49-121 | for input without carriage returns, parse, print and parse gives the same roles and contents |
| Manifest.ErrorIff | src/governance/validator.rs:138-160 | a line that looks like a tag is reported exactly when it is no boundary |
| Manifest.ErrorTells | src/governance/validator.rs:138-160 | which error a line has: no closing bracket, or no role between the brackets and why; with its number and trimmed text |
| Manifest.ValidateManifest | src/governance/validator.rs:133-168 | exactly the errors of the lines, in order, and none exactly when every line that looks like a tag is one |
| Manifest.AcceptedBoundaries | src/governance/validator.rs:133-168 | in an accepted manifest blocks begin exactly at the lines that look like tags |

## Left out

- Task names, descriptions, roles, estimates and timestamps, plan progress and its estimate, and the texts of recovery records: nothing decides on them.
- Locks, asynchronous scheduling and lock poisoning: steps are atomic, and orders of completion and of map iteration are arbitrary.
- A failing node executor leaves the shared state alone in the model; in the program it may have written to it before failing, which only an observer of the shared state can see.
- Panicking or externally cancelled subgraph tasks as outcomes of a run: the joining and merging lemmas cover such results, the node's execution does not produce them.
- Counters are unbounded; iteration limits keep the program's 32-bit counters below their limit, and a node that sets the state's own iteration counter to its maximum is not modelled.
- Checkpoint saves succeed, and a new checkpoint id is one that is not in use; the random generator itself is not modelled.
- The setters of graph builders, runner configurations and queries; the coordinator's cycle check, which is the search of DepGraph.HasCycles on another map.
- JSON conversion errors: context values are JSON already, so the namespace merger always stores its value.
- Scores are integers and thresholds reals, without the rounding of 32-bit floats above 2^24 or values that are not numbers.
- SHA-256 is an arbitrary function; the theorems assume that it has no collisions, never yields the start marker and yields no bars. Times are their printed text.
- The wording of error messages, mismatches and event texts: they are data values that carry the same facts.
- The order among edge changes with equal source, key and destination, and the serialised form of a diff.
- Filtering blocks by role, role routing, tool policy, budgets, compliance export, decision memory and context packing: each is settled by one or two branches.
- The language-model, tool, human-approval, worker, network, database and version-control parts: foreign calls.
- Plans and graphs come from their own constructors: a plan's map keys are its tasks' ids, and a compiled graph carries the index that compiling built.
- PlanRun.RunSafety: speaks of runs in which registered recoveries are created as new tasks, with ids that are not generated ones, and each is injected at most once; a second injection for one failure closes a cycle, as Plan.ReusedRecoveryCloses shows for every plan, and RegisteredRecoveries.FailingOnceIsEnough says when there is none.

## Where the code and its documentation differ

The model follows the code.

- On "replan_needed" the attempts are saved but the plan is not (`src/planning/node.rs:271-283`), so attempts are used up although no recovery is injected: Replanning.AttemptsUsed.
- Only the failed task is made to depend on the recovery; the comment at `src/planning/plan.rs:198` also mentions downstream tasks: Plan.EpicPlan.InjectRecoveryTask.
- The manifest parser is called lossless and said to preserve surrounding blank lines (`src/governance/parser.rs:12` and `src/governance/parser.rs:26`); empty lines at the beginning of a body are lost: Manifest.ContentLosslessIff.
- An empty diff means structural equality at the layer it observes (`src/diff.rs:32-35`); that layer leaves out every edge from or to END, so graphs that end differently can have an empty diff: EdgeDiff.EndEdgesUnseen.
- A run that meets an unknown node publishes no final event: StreamingRunner.StoryFollowsProtocol.
- A trace is replayed from its records, but an explicit continue to END is read back as a plain continue: TracedRunner.OutputRoundTrip.
- The configured number of checkpoints per thread (`src/checkpoint/mod.rs:108-109`) is read by no code.
