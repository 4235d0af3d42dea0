# Verification of the Agentic Ops Fabric's dispatch core

This project models the parts of the Agentic Ops Fabric that decide what runs next, what is delivered to whom, and
what is written down, and proves in Dafny what they promise.

`dafny verify dfyconfig.toml` checks everything.

## What is modelled

**The workflow engine.** A workflow is a list of hops with AND- and OR-joins, conditions and rejection strategies, and
a map from hop to hop state. `Workflow.dfy` holds the data, `Conditions.dfy` the condition language,
`DagSemantics.dfy` the meaning of one evaluation, `ConditionLaws.dfy`, `EvaluationLaws.dfy` and `StepLaws.dfy` what
conditions, evaluations and steps do in terms of the states alone, and `DagEvaluator.dfy` the evaluator itself: a class that overwrites
a working copy and appends to a change log, whose entries `ChangeLog.dfy` explains. `DagSteps.dfy` turns the scheduler, the session-end router, the enforcement
callback and the timeout escalation into steps of a transition system whose polls may act on old listings, and `DagHandlers.dfy` is the task record those
handlers update. About runs of this system: `Confluence.dfy`, `RunBounds.dfy`, `RejectionLoops.dfy`,
`CausalSafety.dfy`, `CausalityBreaks.dfy`, `Progress.dfy`, `Stalls.dfy`, `ConditionalJoins.dfy`,
`ConditionFrames.dfy`.
`DagValidation.dfy`, with `ConditionTrees.dfy`, shows that the validation made when a task is created establishes exactly what these theorems assume.

**The scheduler.** `CircularDeps.dfy` is the depth-first search for circular task dependencies, `TaskDispatcher.dfy` the
throttle and the greedy planner.

**Hand-off and locking.** `ChatDelivery.dfy` and `SpawnBridge.dfy`, over `PendingQueue.dfy`, treat the queues and the
plugin bridge as values that operations transform, prove properties of every sequence of operations, and tie classes
with the source's fields to them. `MurmurLock.dfy` interleaves callers at every await. `DeliveryCursor.dfy` interleaves
event-log appends with any number of callback deliveries.

**Algorithms.** `Levenshtein.dfy` (key suggestions), `Handoff.dfy` and `Summary.dfy` over `LineReader.dfy`, `Text.dfy`
and `Numerals.dfy` (Markdown reports), `Assembler.dfy` (context within a budget).

## Where the code and its comments differ

The model follows the code.

- The header of `src/dispatch/dag-evaluator.ts` (line 10) and the comment at lines 201-202 say that condition skips
  cascade; the code at lines 250-252 does not cascade them.
- The comments at lines 262-266 of the same file expect hops that cannot run to have been skipped; an AND-join with
  both a complete and a failed predecessor, and an OR-join whose predecessors were all skipped by conditions, stay
  pending (`Progress.StalledRunIsBlockedOrStartable` is exact about this).
- After a rejection, hops are reported as ready but their status is not set (lines 498-505). The session-end router
  dispatches the first of them at once (`src/protocol/router.ts`, lines 340-350); if that session cannot be spawned, the
  circuit breaker or a "predecessors" rejection can leave the workflow stalled (`Stalls.BreakerCanStall`, exactly when in
  `Stalls.BreakerStallsIff` and `Stalls.PredecessorsStallIff`).
- The comment at line 383 asks for complete dependencies of a reset hop; the code at line 422 accepts skipped ones.
- `src/dispatch/callback-delivery.ts` calls its cursor self-healing (line 260). That holds for failures
  (`DeliveryCursor.NoEventSkipped`), not for events stamped in the millisecond of the cursor
  (`DeliveryCursor.DeliverableIffAfterCursor`).

## Model

| member | source | states |
|---|---|---|
| `Confluence.Confluence` | src/dispatch/dag-evaluator.ts:455-588 | With no conditions, no rejections and no session that ends silently, on an acyclic definition, any two runs of dispatches, results and escalations that have the same outcome per hop and end with nothing ready or in flight end in the same status map and the same workflow status, whatever the order and however old the listings the polls act on. |
| `Confluence.MaximalRunsEndInDenotation` | src/dispatch/dag-evaluator.ts:526-568 | That common end is the recursive denotation of the joins: cut off is skipped, join met runs, otherwise left pending. |
| `Confluence.DenotationExists` | src/dispatch/dag-evaluator.ts:275-306 | Every acyclic definition has such a denotation, for any choice of outcomes. |
| `Confluence.QuiescentIffMaximal` | src/dispatch/scheduler.ts:246-273 | A state without ready or dispatched hops is exactly one in which nothing can happen but a dispatch on a stale listing. |
| `RunBounds.SingleRejectorBound` | src/dispatch/dag-evaluator.ts:466-496 | With one hop that may reject, under either strategy, a run over n hops processes at most 3n hop events and takes at most 12n steps of any kind, plus one event and four steps for each dispatch on a stale listing. |
| `RunBounds.RunLengthBound` | src/dispatch/dag-evaluator.ts:350-439 | The general bound, for any levels up to t that decrease from a rejecting hop to those whose count its rejection erases: with r rejecting hops, (2r + 1)^(t + 1) n events and four times as many steps, plus the same charge for stale dispatches. |
| `RejectionLoops.BoundedIff` | src/dispatch/dag-evaluator.ts:350-439 | On an acyclic definition without conditions the length of runs is bounded, stale dispatches aside, if and only if no two hops erase each other's rejection count. |
| `RejectionLoops.BoundedWithoutMutualErasure` | src/dispatch/dag-evaluator.ts:350-439 | With conditions too: without mutual erasure every run of an acyclic definition keeps the bound (2r + 1)^r 4n, or (2r + 1) 4n when nothing rejects, plus four steps for each stale dispatch. |
| `RejectionLoops.EndlessRuns` | src/dispatch/dag-evaluator.ts:350-378 | Two hops anywhere in an acyclic definition without conditions that erase each other's count give runs of every length from the initial state, on fresh listings. |
| `RejectionLoops.LevelsExistIff` | src/dispatch/dag-evaluator.ts:364-367 | Levels decreasing along erasure exist exactly when no two hops erase each other, a check on the definition alone. |
| `CausalSafety.CausalSafety` | src/dispatch/scheduler.ts:246-273 | Over every run of dispatch, result, enforcement and escalation steps from the initial state, on whatever listings the polls act: in all its states every ready, dispatched, complete or failed hop is a root or has its join met, if and only if every dispatch and every "predecessors" rejection on the way is harmless. At most one hop is in flight in any case. |
| `CausalSafety.PredecessorRejectionIsCausalIff` | src/dispatch/dag-evaluator.ts:396-439 | With the "predecessors" strategy one rejection keeps that property if and only if no started dependent outside the reset set loses its join and no OR-join is re-readied without a complete predecessor. |
| `CausalSafety.DispatchIsCausalIff` | src/dispatch/scheduler.ts:254-273 | A dispatch on a fresh or stale listing keeps that property if and only if the hop is a root or has its join met without itself, and no started hop's join rests on it. |
| `CausalSafety.OriginRunsAreCausal` | src/dispatch/scheduler.ts:246-273 | With fresh listings, and rejections to the origin only, every run is harmless. |
| `CausalityBreaks.StaleListingBreaksCausality` | src/dispatch/scheduler.ts:254-273 | In any definition with an unconditioned follower of a root, a poll that acts on a listing from the start of its run breaks the property: a run from the initial state with one stale dispatch. |
| `CausalityBreaks.PredecessorRejectionBreaksCausality` | src/dispatch/dag-evaluator.ts:396-439 | So does a "predecessors" rejection by one of two followers of a root while the other is ready: a run from the initial state without stale dispatches. |
| `DagSteps.OneHopInFlight` | src/dispatch/scheduler.ts:246-273 | At most one dispatched hop along every run, stale snapshots and follow-up dispatches included. |
| `DagSteps.EvaluateEndsFlight` | src/dispatch/dag-evaluator.ts:455-588 | Evaluating the event of the hop in flight leaves no hop dispatched, for every outcome. |
| `DagSteps.FollowIsStartable` | src/protocol/router.ts:340-350 | The hop dispatched right after a result is ready, or pending with its join met. |
| `Progress.AlwaysWorkToDo` | src/dispatch/dag-evaluator.ts:552-577 | AND-joins only, any conditions and rejections: along every run in which no hop fails, each state is fully terminal or has a ready or dispatched hop. |
| `Progress.StalledOnlyByBlockedHop` | src/dispatch/dag-evaluator.ts:275-306 | For general joins, a state stalled after a non-rejection call contains a hop with all predecessors terminal that is an AND-join with a failed predecessor or an OR-join with no complete one. |
| `Progress.RunKeepsRootsStarted` | src/dispatch/dag-evaluator.ts:350-439 | Roots never return to pending along a run, so the stall analysis applies to every reachable state. |
| `Progress.StalledRunIsBlockedOrStartable` | src/dispatch/dag-evaluator.ts:275-306 | Along every run, whatever its last step was, a stalled state contains such a blocked hop or a pending hop whose join is met. |
| `Progress.InitialRootsStarted` | src/schemas/workflow-dag.ts:522-538 | The roots are ready in the initial state. |
| `Stalls.UndisruptedStallIsBlocked` | src/dispatch/dag-evaluator.ts:466-505 | Every run in which no rejection trips the circuit breaker or resets predecessors stalls only with a blocked hop. |
| `Stalls.BreakerStallsIff` | src/dispatch/dag-evaluator.ts:471-487 | The circuit breaker stalls the workflow if and only if no hop was ready before, some pending hop lies outside its skip cascade, and no reported hop is dispatched at once. |
| `Stalls.PredecessorsStallIff` | src/dispatch/dag-evaluator.ts:396-439 | A "predecessors" rejection stalls it if and only if no hop outside the reset was ready, no reset hop has all its dependencies satisfied outside the reset, and no reported hop is dispatched at once. |
| `Stalls.AttendedStallIsBlocked` | src/protocol/router.ts:340-350 | As long as the follow-up session can be spawned, the end of a session stalls the workflow only with a blocked hop, rejections included. |
| `Stalls.BreakerCanStall` | src/dispatch/dag-evaluator.ts:498-505 | A run from the initial state, on fresh listings: after a third rejection the breaker lists a hop as ready and leaves it pending, its session is not spawned, and the workflow stalls although no hop of the definition is blocked. |
| `ConditionalJoins.ConditionHeldIff` | src/dispatch/dag-evaluator.ts:211-255 | When a call readies an AND-join with a condition: in that call all its predecessors were terminal when it was scanned and its condition was true, if and only if each predecessor still pending when the scan began is listed before it. |
| `ConditionalJoins.PendingAfterCascade` | src/dispatch/dag-evaluator.ts:526-551 | What is still pending when the scan begins can be read off the state before the call: the pending hops other than the event's, less its skip cascade unless it completed. |
| `ConditionalJoins.ReadiedOnlyWhenConditionHeld` | src/dispatch/dag-evaluator.ts:211-255 | So the condition was true whenever the dependencies that carry conditions are listed before the hop. |
| `ConditionalJoins.EarlierAreFinal` | src/dispatch/dag-evaluator.ts:219-254 | Hops scanned earlier in a call are final when a later hop is scanned. |
| `ConditionalJoins.UnconditionedAreFinal` | src/dispatch/dag-evaluator.ts:219-223 | Hops without a condition are final throughout the scan, wherever they are listed. |
| `ConditionalJoins.ConditionIgnoredOutOfOrder` | src/dispatch/dag-evaluator.ts:219-254 | Why the order matters: in a run from the initial state, a hop whose condition is always false, listed before its predecessor, becomes ready. |
| `ConditionalJoins.ConditionDecidesRun` | src/dispatch/dag-evaluator.ts:242-254 | A run from the initial state: when a root completes, a hop that follows it alone becomes ready if its condition is always true, and is skipped if it is always false. |
| `EvaluationLaws.EvaluationLaw` | src/dispatch/dag-evaluator.ts:540-568 | After a non-rejection call each hop that was pending once the event and its cascade were in is skipped if its condition failed, else ready if its join is met, else pending, and every other hop is as it was then; stated on the states alone. |
| `EvaluationLaws.ScanApplies` | src/dispatch/dag-evaluator.ts:219-254 | The scan skips exactly the pending hops with a condition whose predecessors have ended and whose condition is false, given the skips of the hops listed before them. |
| `EvaluationLaws.AppliedIsUnique` | src/dispatch/dag-evaluator.ts:219-254 | Only one state satisfies those equations, so nothing about the scan is left open. |
| `EvaluationLaws.ConditionDecides` | src/dispatch/dag-evaluator.ts:229-254 | For AND- and OR-joins: when the predecessors have ended before the scan, the hop is skipped if and only if its condition is false, and ready if and only if it is true and the join is met. |
| `EvaluationLaws.PrimaryLaw` | src/dispatch/dag-evaluator.ts:526-537 | The event's hop gets the status of its outcome, the time and the result, a failure or skip also skips the least closed set of pending hops, and nothing else changes. |
| `EvaluationLaws.RejectionLaw` | src/dispatch/dag-evaluator.ts:350-487 | What each rejection leaves, field by field: the breaker at the third, the reset of every hop for "origin" and by default, the reset of the hop and its dependencies for "predecessors". |
| `EvaluationLaws.StatusLaw` | src/dispatch/dag-evaluator.ts:317-332 | The workflow has no final status exactly while some hop has not ended; then it failed if some hop failed, else it is complete. |
| `EvaluationLaws.ReportsLaw` | src/dispatch/dag-evaluator.ts:498-505 | The hops a call reports are those it made ready; after a rejection, the pending hops whose join is met and then those already ready; each part in definition order and each hop once. |
| `ConditionLaws.ConjunctionLaws` | src/dispatch/dag-condition-evaluator.ts:187-190 | The empty conjunction is true, and a longer one holds if its first operand and the rest do. |
| `ConditionLaws.DisjunctionLaws` | src/dispatch/dag-condition-evaluator.ts:192-195 | The empty disjunction is false, and a longer one holds if its first operand or the rest does. |
| `ConditionLaws.NumberLaws` | src/dispatch/dag-condition-evaluator.ts:140-166 | For a number exactly one of below, above and equal to the bound holds, and the other two comparisons are the unions with equality. |
| `ConditionLaws.CoercionLaws` | src/dispatch/dag-condition-evaluator.ts:140-166 | An absent field and an object compare with nothing, null is 0, booleans are 0 and 1. |
| `ConditionLaws.MembershipLaws` | src/dispatch/dag-condition-evaluator.ts:169-174 | `in` is a disjunction of equalities, and false of an absent field. |
| `ConditionLaws.StatusLaws` | src/dispatch/dag-condition-evaluator.ts:182-185 | `hop_status` holds for exactly one of the six status names of each known hop. |
| `ConditionLaws.ResultPath` | src/dispatch/dag-condition-evaluator.ts:64-102 | The path hops.<id>.result.<key> reads that field of that hop's result, for an id and a key without dots. |
| `ConditionLaws.TagLaws` | src/dispatch/dag-condition-evaluator.ts:177-180 | `has_tag` holds exactly when an element of the tag list, read by its path, equals the tag. |
| `ConditionTrees.DepthIs` | src/schemas/workflow-dag.ts:268-292 | The measured depth is the length of the longest way into the expression tree. |
| `ConditionTrees.SizeIs` | src/schemas/workflow-dag.ts:268-292 | The measured size is the number of positions in the tree. |
| `ConditionTrees.ReferencesAre` | src/schemas/workflow-dag.ts:309-336 | The collected hops are exactly those that some operator in the tree reads: by a status test, or by a field path hops.<id>, alone or continued after a dot. |
| `ConditionFrames.ConditionFrame` | src/schemas/workflow-dag.ts:309-336 | A condition has the same value in any two states that show the same status and result for the hops that validation collects from it. |
| `DagEvaluator.EvaluateDAG` | src/dispatch/dag-evaluator.ts:455-588 | The new hop states satisfy the law of evaluations, or that of rejections, replaying `changes` over the old statuses gives exactly the new ones and each entry has the reason of its phase, `readyHops` lists the startable hops (after a rejection, also those already ready), in definition order and each once, and the workflow and suggested task status follow. |
| `ChangeLog.TellsAll` | src/dispatch/dag-evaluator.ts:526-568 | The log of a non-rejection call: first the event's own transition, then the cascade's skips, the skips of false conditions and the hops made ready, in this order, each from pending and with its own reason. |
| `DagEvaluator.WorkingCopy.CascadeSkips` | src/dispatch/dag-evaluator.ts:162-191 | The recursion ends on every graph and skips exactly the least closed set of pending hops, with every skip logged. |
| `DagSemantics.CascadeSetIsLeast` | src/dispatch/dag-evaluator.ts:162-191 | That set is closed, is contained in every closed set, and holds only pending hops. |
| `DagSemantics.CascadeSetIgnoresOrder` | src/dispatch/dag-evaluator.ts:170-190 | It does not depend on the order in which hops are listed. |
| `DagEvaluator.WorkingCopy.BuildDownstreamIndex` | src/dispatch/dag-evaluator.ts:131-143 | The index lists under each hop exactly the hops that depend on it. |
| `DagEvaluator.WorkingCopy.EvaluateNewlyEligibleConditions` | src/dispatch/dag-evaluator.ts:211-255 | One pass over the hops that skips exactly those whose condition fails, each seeing the skips before it, with every skip logged and no cascade. |
| `DagEvaluator.WorkingCopy.DetermineReadyHops` | src/dispatch/dag-evaluator.ts:275-306 | Exactly the pending non-root hops whose join is met, each once. |
| `DagEvaluator.WorkingCopy.MarkAllReady` | src/dispatch/dag-evaluator.ts:564-568 | The listed hops become ready, the others keep their state, and the log grows by one entry to ready for each of them, in order. |
| `DagEvaluator.WorkingCopy.ResetAllHopsForOrigin` | src/dispatch/dag-evaluator.ts:350-378 | Every hop is reset, roots to ready; only the rejected hop keeps a count; the log still replays although unchanged statuses are not logged. |
| `DagEvaluator.WorkingCopy.ResetPredecessorHops` | src/dispatch/dag-evaluator.ts:396-439 | The rejected hop and its direct predecessors are reset as if all at once, although the loop reads the map it overwrites; the others keep their state. |
| `DagEvaluator.WorkingCopy.Reject` | src/dispatch/dag-evaluator.ts:466-496 | Circuit breaker at the third rejection, otherwise the hop's strategy; the log holds the breaker's transition and its cascade, or the resets, the rejected hop's among them. |
| `DagEvaluator.WorkingCopy.Advance` | src/dispatch/dag-evaluator.ts:526-568 | Primary transition, cascade, condition scan and readying in this order. |
| `DagFacts.NormalKeepsStarted` | src/dispatch/dag-evaluator.ts:526-568 | On a non-rejection call every other hop that has left pending keeps its whole state, status and result included. |
| `DagFacts.NormalSettles` | src/dispatch/dag-evaluator.ts:526-534 | The event's hop gets its outcome and result, and nothing later in the call changes them. |
| `DagFacts.NormalMovesPending` | src/dispatch/dag-evaluator.ts:540-568 | A pending hop stays, is skipped, or is readied because its join is met. |
| `DagFacts.NormalLeavesNoneStartable` | src/dispatch/dag-evaluator.ts:563-568 | After a non-rejection call no pending hop is startable. |
| `DagFacts.BreakerEffect` | src/dispatch/dag-evaluator.ts:471-487 | The circuit breaker fails the hop and skips pending hops, and changes nothing else. |
| `Workflow.InitialStatus` | src/schemas/workflow-dag.ts:522-538 | Initially roots are ready and all other hops pending, with no other field set. |
| `DagHandlers.TaskWorkflow.HandleHopCompletion` | src/dispatch/dag-transition-handler.ts:187-268 | Without a dispatched hop nothing changes. Otherwise a run that is done, or asks for a review of a hop that may not reject, completes the hop with its notes; a review request of a hop that may reject rejects it; any other outcome fails it with its notes; and the reported hops, completion and review flags follow. |
| `StepLaws.FinalStatusesHaveCauses` | src/dispatch/dag-transition-handler.ts:93-119 | In every run from the initial state a complete hop had a session that succeeded, and a failed hop a session that failed, a third rejection, or an enforced silent end. |
| `StepLaws.BecomesCompleteIff` | src/dispatch/dag-transition-handler.ts:102-107 | A step turns a hop complete if and only if it ends a successful session of that hop. |
| `StepLaws.BecomesFailedIff` | src/dispatch/dag-transition-handler.ts:108-110 | A step turns a hop failed if and only if it ends a failed session of it, trips its breaker, or enforces its silent end. |
| `DagHandlers.TaskWorkflow.DispatchHop` | src/dispatch/dag-transition-handler.ts:285-460 | The hop is dispatched if and only if it is defined and its session was spawned; otherwise the record is unchanged. |
| `DagHandlers.TaskWorkflow.Poll` | src/dispatch/scheduler.ts:246-273 | One workflow's turn dispatches exactly when neither the listed nor the fresh state has a dispatched hop and the listed one has a ready hop; it is then a dispatch step for the first of them. |
| `DagHandlers.TaskWorkflow.SessionEnd` | src/protocol/router.ts:296-351 | A session end is one result step with the same three cases, then a follow-up dispatch of the first reported hop, which is ready or has its join met, exactly when one is due and its session could be spawned. |
| `DagHandlers.TaskWorkflow.EnforceCompletion` | src/dispatch/dag-transition-handler.ts:336-386 | A hop still dispatched when its session ends is failed without an evaluation; otherwise nothing changes. |
| `DagHandlers.TaskWorkflow.EscalateTimeout` | src/dispatch/escalation.ts:40-188 | A hop in flight is escalated exactly when not in dry-run, not escalated before, and with a target role; it goes to that role, in flight again if a session was spawned and otherwise ready without one, and is marked escalated. |
| `DagValidation.ValidateDAG` | src/schemas/workflow-dag.ts:360-505 | Validation reports no error if and only if ids are unique, dependencies exist, some hop is a root, the graph is acyclic, every timeout is digits and m, h or d, every escalation role is not blank, and every condition has at most five levels and fifty operators and reads defined hops only; on acceptance a rank certifies the order. |
| `DagValidation.Kahn` | src/schemas/workflow-dag.ts:391-429 | For every definition, duplicate ids and dangling dependencies included: the topological sort counts as many ids as there are hops if and only if ids are unique and some rank decreases along all known dependencies. |
| `DagValidation.BuildGraph` | src/schemas/workflow-dag.ts:391-407 | For every definition, the adjacency lists and in-degrees count the dependency entries that name a hop, repetitions and repeated ids included. |
| `DagValidation.Process` | src/schemas/workflow-dag.ts:414-422 | Processing a hop keeps the queue equal to the unprocessed hops whose dependencies are all processed, each once. |
| `DagValidation.BreadthFirst` | src/schemas/workflow-dag.ts:431-446 | The search visits exactly the least set that holds the roots and, with an id, the ids listed under it. |
| `DagValidation.AllAreVisited` | src/schemas/workflow-dag.ts:431-455 | In an acyclic definition the search visits every hop, so the reachability check never fails on its own. |
| `DagValidation.ReachableFromRoot` | src/schemas/workflow-dag.ts:431-455 | In an accepted graph every hop has a chain of dependencies from a root. |
| `CircularDeps.FindCircularDeps` | src/dispatch/scheduler.ts:119-161 | The marked tasks are a union of dependency cycles, every dependency cycle contains a marked task, at most n + e calls are made, and a dependency is what the last entry of a task lists. |
| `CircularDeps.CycleSearch.Detect` | src/dispatch/scheduler.ts:128-154 | One call visits its task, keeps the stack, marks only members of cycles, leaves the task finished or its stack edge closing a recorded cycle, and pays for its calls. |
| `CircularDeps.CycleSearch.MarkFrom` | src/dispatch/scheduler.ts:129-137 | A task found on the stack closes a cycle all of whose members are marked. |
| `CircularDeps.EveryCycleIsHit` | src/dispatch/scheduler.ts:139-141 | Although finished tasks are not searched again, no cycle escapes. |
| `CircularDeps.RemovalIsAcyclic` | src/dispatch/task-dispatcher.ts:111-121 | Without the marked tasks the dependency graph has no cycle. |
| `TaskDispatcher.GreedyDispatch` | src/dispatch/task-dispatcher.ts:108-245 | For every poll: per-poll, global and (in active mode) per-team limits hold for the planned assignments, and every gated ready task not served would be denied by the final plan, early stop included. |
| `TaskDispatcher.PlanIsWellPlanned` | src/dispatch/task-dispatcher.ts:108-260 | Told from the tasks alone: an assigned task is ready, its dependencies are done, it is not leased, its resource is free, it is neither on a cycle nor a parent of open subtasks, its agent is what its routing names, and the intervals are over; alerts are the same without a routing target; blocked are exactly the open parents and the ready tasks on cycles that the planner reaches; and no ready task that may start was passed over while it fitted the limits. |
| `TaskDispatcher.PlanIsSafe` | src/dispatch/task-dispatcher.ts:165-225 | The same limits from any safe plan, with the counters equal to the assignments they count. |
| `TaskDispatcher.PlanIsMaximal` | src/dispatch/task-dispatcher.ts:179-186 | A denied task stays denied as the plan grows, so the early break loses nothing. |
| `TaskDispatcher.DryRunTeamDenialIff` | src/dispatch/task-dispatcher.ts:222-225 | In dry-run mode team slots are not reserved: however far the plan has got, a task is denied for its team if and only if the team was full when the poll began and the global limit has room. |
| `TaskDispatcher.DryRunOverbooksTeamIff` | src/dispatch/task-dispatcher.ts:165-225 | For gated, routable tasks of one team that is not full, a dry-run plan passes the team's limit if and only if both the tasks and the room under the global and per-poll limits exceed the team's free slots. |
| `TaskDispatcher.BuildDispatchActions` | src/dispatch/task-dispatcher.ts:47-262 | The loop with its gates and its break produces that plan, then the blocks for parents with open subtasks, and the result is well planned in that sense: at most one action per ready task, in their order, then at most one block per task. |
| `TaskDispatcher.TeamCountsCount` | src/dispatch/task-dispatcher.ts:91-98 | The per-team table counts the in-progress tasks of each team. |
| `TaskDispatcher.Throttle.Update` | src/dispatch/throttle.ts:118-124 | A dispatch records the time globally and, for a named team, for that team only. |
| `MurmurLock.NoLostUpdates` | src/murmur/state-manager.ts:55-201 | Under any interleaving, failing saves included: at most one caller per team is in the critical section, every finished operation was saved, and the stored counters equal the increments saved since the last start of a review. |
| `MurmurLock.RunKeepsInvariant` | src/murmur/state-manager.ts:55-74 | A caller is in its critical section exactly when it holds its team's lock, what it loaded is still current, and each file is the fold of the saved operations. |
| `MurmurLock.CountersCount` | src/murmur/state-manager.ts:142-186 | Folding operations gives the counts since the last start of a review. |
| `MurmurLock.ReviewFieldsTell` | src/murmur/state-manager.ts:165-200 | The review fields tell the last start of a review, its task and its trigger, and whether a review has ended since. |
| `MurmurLock.CallersWereCalled` | src/murmur/state-manager.ts:120-200 | Each caller carries the team and the operation it was called with. |
| `MurmurLock.SomeoneCanMove` | src/murmur/state-manager.ts:57-73 | An unfinished caller always means that some caller of its team can take its next step. |
| `ChatDelivery.ExactlyOnce` | src/ipc/chat-delivery-queue.ts:59-154 | Over any interleaving: pending and claimed are disjoint and cover the ids waited for, each request is handed out at most once, each promise settles at most once, and claims are first in, first out. |
| `ChatDelivery.OrphansOnlyFromEarlyResults` | src/ipc/chat-delivery-queue.ts:138-154 | A step leaves a request behind that nobody waits for if and only if it posts a result for a request still pending and waited for. |
| `ChatDelivery.FirstSettlementStands` | src/ipc/chat-delivery-queue.ts:72-154 | A promise waited for is resolved by a successful result, rejected by a failed one or timed out, whichever comes first, and no later step changes that. |
| `ChatDelivery.PendingAndClaimedAreWaiting` | src/ipc/chat-delivery-queue.ts:106-154 | When results are posted only for requests that have left the pending list, pending and claimed together are exactly the ids waited for. |
| `ChatDelivery.ChatDeliveryQueue.EnqueueAndAwait` | src/ipc/chat-delivery-queue.ts:59-104 | Enqueueing adds the request and its waiter. |
| `ChatDelivery.ChatDeliveryQueue.ClaimOldest` | src/ipc/chat-delivery-queue.ts:110-119 | The first unclaimed request in insertion order, moved to claimed. |
| `ChatDelivery.ChatDeliveryQueue.TryClaimId` | src/ipc/chat-delivery-queue.ts:126-131 | True exactly for a pending id, which is moved to claimed. |
| `ChatDelivery.ChatDeliveryQueue.DeliverResult` | src/ipc/chat-delivery-queue.ts:138-154 | Settles the promise of an id waited for; otherwise nothing changes. |
| `ChatDelivery.ChatDeliveryQueue.Timeout` | src/ipc/chat-delivery-queue.ts:71-84 | Rejects the promise of an id waited for and forgets the request; otherwise nothing changes. |
| `SpawnBridge.HandOutsArePaidFor` | src/ipc/spawn-queue.ts:38-81 | An id is handed out at most once more than it was released, and every enqueued id is in exactly one of pending and claimed. |
| `SpawnBridge.CallbackFiresOnce` | src/dispatch/plugin-bridge-adapter.ts:72-160 | Over replayed results and forced completions in any order, a callback fires at most once, and a session with a callback is alive exactly until then. |
| `SpawnBridge.FirstOutcomeStands` | src/dispatch/plugin-bridge-adapter.ts:105-132 | The outcome given to the callback is the first one; nothing later replaces it. |
| `SpawnBridge.SpawnQueue.EnqueueRequest` | src/ipc/spawn-queue.ts:38-44 | Adds the request at the end of pending. |
| `SpawnBridge.SpawnQueue.ClaimOldest` | src/ipc/spawn-queue.ts:50-59 | The first unclaimed request in insertion order, moved to claimed. |
| `SpawnBridge.SpawnQueue.TryClaimId` | src/ipc/spawn-queue.ts:66-71 | True exactly for a pending id, which is moved to claimed. |
| `SpawnBridge.SpawnQueue.Release` | src/ipc/spawn-queue.ts:78-81 | Moves the id back to pending. |
| `SpawnBridge.PluginBridgeAdapter.SpawnSession` | src/dispatch/plugin-bridge-adapter.ts:52-97 | Without a plugin nothing changes; otherwise the request is queued and its callback recorded under its id. |
| `SpawnBridge.PluginBridgeAdapter.Deliver` | src/dispatch/plugin-bridge-adapter.ts:105-132 | Removes the entry and calls back, if there is an entry with a callback. |
| `SpawnBridge.PluginBridgeAdapter.ForceCompleteSession` | src/dispatch/plugin-bridge-adapter.ts:141-160 | Removes the entry and calls back with an aborted outcome, if there is an entry with a callback. |
| `SpawnBridge.PluginBridgeAdapter.GetSessionStatus` | src/dispatch/plugin-bridge-adapter.ts:134-139 | Alive exactly while the entry is in the table. |
| `DeliveryCursor.DeliveredIsPrefix` | src/dispatch/callback-delivery.ts:207-261 | With strictly increasing positive timestamps and one pass at a time whose update is never lost, for any interleaving of appends, successes and failures, and whatever order queries return, the delivered batches concatenate to a prefix of the log. |
| `DeliveryCursor.NoEventSkipped` | src/dispatch/callback-delivery.ts:207-261 | However many passes overlap, each holding the cursor it listed, fail or lose their update: every event at or below the cursor has been delivered, if events are stamped after the batches already taken and the cursors already read. |
| `DeliveryCursor.SkippableIffNotFresh` | src/dispatch/callback-delivery.ts:221-226 | That condition is exact: a new event can come to lie at or below the cursor without being delivered if and only if its stamp is not past the cursor, every running batch and every cursor read. |
| `DeliveryCursor.DeliverableIff` | src/dispatch/callback-delivery.ts:221-226 | In every state, an undelivered event of the log can still be delivered if and only if it is in a running batch, or stamped after the cursor, a cursor a pass has listed, or the end of a running batch. |
| `DeliveryCursor.DeliverableIffAfterCursor` | src/dispatch/callback-delivery.ts:221-226 | With no pass under way, a new event can ever be delivered if and only if it is stamped after the cursor. |
| `DeliveryCursor.LateEventIsLost` | src/dispatch/callback-delivery.ts:221-226 | An event stamped at or below the cursor and not yet taken is never delivered in any continuation. |
| `DeliveryCursor.OverlapDuplicatesIff` | src/dispatch/callback-delivery.ts:207-259 | From every state of such a careful run, a pass that starts can lead to an event delivered twice before any other pass starts if and only if a pass is under way. |
| `DeliveryCursor.LostUpdateDuplicatesIff` | src/dispatch/callback-delivery.ts:248-259 | After a session has ended, the next pass alone can deliver an event again if and only if the session succeeded and its cursor update was lost. |
| `DeliveryCursor.OverlapDuplicates` | src/dispatch/callback-delivery.ts:207-259 | From the start: one event and two passes that list the subscription before either delivers can deliver it twice. |
| `DeliveryCursor.BatchIsSuffix` | src/dispatch/callback-delivery.ts:221-224 | On a log with increasing timestamps a batch is what follows the cursor, for every order of the query result. |
| `DeliveryCursor.SortIsRight` | src/dispatch/callback-delivery.ts:224 | The sort is a chronological permutation. |
| `DeliveryCursor.SortIsStable` | src/dispatch/callback-delivery.ts:224 | Events with the same timestamp keep the order the query returned them in. |
| `DeliveryCursor.TurnIsBeginThenEnd` | src/dispatch/callback-delivery.ts:213-259 | One turn of the loop for a subscriber is the rest of a pass: a query with the cursor listed, then the end of the batch. |
| `DeliveryCursor.TurnsAreIndependent` | src/dispatch/callback-delivery.ts:212-264 | With distinct subscriptions each cursor moves by its own turn only, and the others stay. |
| `DeliveryCursor.SubscriptionStore.DeliverAllGranularityCallbacks` | src/dispatch/callback-delivery.ts:207-265 | The loop leaves every cursor where its turn puts it: at the end of its batch on success, otherwise unchanged. |
| `Levenshtein.Levenshtein` | src/config/registry.ts:183-200 | The table's last entry is the edit distance. |
| `Levenshtein.DistIsMinimal` | src/config/registry.ts:191-198 | Some script of insertions, deletions and substitutions of that length turns one string into the other, and none is shorter. |
| `Levenshtein.Symmetric` | src/config/registry.ts:183-200 | The distance is symmetric. |
| `Levenshtein.TriangleInequality` | src/config/registry.ts:183-200 | The distance satisfies the triangle inequality. |
| `Levenshtein.ZeroOnlyForEqual` | src/config/registry.ts:183-200 | The distance is zero exactly for equal strings. |
| `Levenshtein.FindClosest` | src/config/registry.ts:202-214 | A suggestion is made exactly when some known key is within half the key's length, rounded up; it is a nearest key and the first of them. |
| `Handoff.SurvivesIffWellFormed` | src/context/handoff.ts:80-232 | Parsing a printed note gives it back if and only if it is well formed. |
| `Handoff.RoundTrip` | src/context/handoff.ts:80-232 | Every well-formed note survives: colon-free trimmed ids, trigger and status, trimmed timestamp, progress made of trimmed non-blank lines not starting with #, list items that are non-blank single lines without trailing white space other than None. |
| `Handoff.ParsedIsWellFormed` | src/context/handoff.ts:156-232 | Whatever document is parsed, the resulting note is well formed. |
| `Handoff.ParsedSurvives` | src/context/handoff.ts:156-232 | Printing a parsed document and parsing it again changes nothing. |
| `Handoff.UntitledIsEmpty` | src/context/handoff.ts:156-190 | A text without titles reads as the empty note, triggered by hand. |
| `Handoff.OtherSectionsAreIgnored` | src/context/handoff.ts:177-232 | What stands under a title other than the seven known ones, whatever their case, changes nothing. |
| `Handoff.PrintedHead` | src/context/handoff.ts:80-105 | The printed head, label by label. |
| `Handoff.PrintedLists` | src/context/handoff.ts:105-149 | The printed list sections, title by title, in their order. |
| `Handoff.FormatHandoffMarkdown` | src/context/handoff.ts:80-149 | The printer's loops build the specified document. |
| `Handoff.ParseHandoffMarkdown` | src/context/handoff.ts:156-232 | The parser's loop computes the specified note. |
| `Summary.SurvivesIffWellFormed` | src/context/summary.ts:83-238 | Parsing a printed summary gives it back if and only if it is well formed; a present but empty warning list is not. |
| `Summary.RoundTrip` | src/context/summary.ts:83-238 | Every well-formed summary survives, its result, optional decimal test counts and optional warnings included. |
| `Summary.ParsedIsWellFormed` | src/context/summary.ts:139-238 | Whatever document is parsed, the resulting summary is well formed. |
| `Summary.ParsedSurvives` | src/context/summary.ts:139-238 | Printing a parsed document and parsing it again changes nothing. |
| `Summary.UntitledIsBlank` | src/context/summary.ts:139-165 | A text without titles reads as an empty summary of a success. |
| `Summary.OtherSectionsAreIgnored` | src/context/summary.ts:160-238 | What stands under a title other than the six known ones, whatever their case, changes nothing. |
| `Summary.TestsAreRead` | src/context/summary.ts:198-223 | A labelled line of the test results sets its count to the first number in it and leaves the others, which start at 0. |
| `Summary.PrintedHead` | src/context/summary.ts:83-100 | The printed head and result, label by label. |
| `Summary.PrintedSections` | src/context/summary.ts:100-132 | The other sections in their order, test results and warnings only when there are any. |
| `Summary.FormatSummaryMarkdown` | src/context/summary.ts:83-132 | The printer builds the specified document, leaving out absent sections. |
| `Summary.ParseSummaryMarkdown` | src/context/summary.ts:139-238 | The parser's loop computes the specified summary. |
| `Numerals.FirstNumberAfter` | src/context/summary.ts:203-206 | The first run of digits after a label without digits, read as a number, is the number printed there. |
| `Text.ReadField` | src/context/handoff.ts:191-200 | A value written after a label is read back by splitting at the colon, the whole rest after it for the timestamp. |
| `Assembler.PiecesLaw` | src/context/assembler.ts:105-152 | A layer offers, in order, the section of each of its references that resolves, titled with the layer's label and the part of the reference after the last slash, followed by the content; the seed layer leaves out the card. |
| `Assembler.BudgetKeptIff` | src/context/assembler.ts:154-159 | The result keeps a budget if and only if the budget is at least the 46 characters of the truncation notice. |
| `Assembler.RecordedSurviveIff` | src/context/assembler.ts:73-103 | The card and every section recorded in `sources` stand whole at the start of the result if and only if the card fits the budget. |
| `Assembler.SmallCardKeepsShape` | src/context/assembler.ts:77-88 | Before the final truncation, a card that fits is followed by the recorded sections, whole and within the budget, and then at most by one partial section with the notice, which starts more than 100 characters before the budget ends. |
| `Assembler.BudgetHarmlessIff` | src/context/assembler.ts:77-88 | A budget changes nothing if and only if the unlimited result fits in it. |
| `Assembler.UnlimitedIncludesAll` | src/context/assembler.ts:105-152 | Without a budget the card and every section that resolves are included, layer by layer, the deep layer only on request. |
| `Assembler.TruncateLaw` | src/context/assembler.ts:154-159 | A text over its budget is cut to end in the notice exactly at the budget, and becomes the notice alone when that does not fit. |
| `Assembler.CutLaw` | src/context/assembler.ts:77-91 | A section that does not fit fills the rest of the budget and is marked when more than a hundred characters remain; otherwise nothing of it is added. |
| `Assembler.UnlimitedIsWhole` | src/context/assembler.ts:105-152 | Without a budget the summary is the card followed by the texts of the recorded sections. |
| `Assembler.ZeroBudgetIsSeedOnly` | src/context/assembler.ts:125-140 | A budget of zero does not limit the seed layer and leaves the other layers out. |
| `Assembler.AddContent` | src/context/assembler.ts:74-93 | A section is added whole and recorded if it fits; otherwise a part with the notice if more than 100 characters remain, and nothing is recorded. |
| `Assembler.AssembleContext` | src/context/assembler.ts:68-166 | The three layer loops and the final truncation compute the specified summary and sources. |

## Left out

- Handlers run atomically: a task record read before an await and saved after it, so that a concurrent save is overwritten, is not modelled. Stale scheduler listings are, as the `seen` component of a dispatch step.
- Filesystem stores, leases, locks on tasks, logging, metrics, trace capture and notification: I/O around the modelled state. The review, blocked and deadletter transitions of the task itself are not modelled either; a deadletter decision is a parameter of the enforcement step.
- DagHandlers.TaskWorkflow.Poll: the scan over all tasks in progress, here and in the timeout check, is one turn per workflow.
- Clock readings are one timestamp per call; elapsed-time and duration parsing are a condition under which an escalation step may happen.
- The hop a poll or a session end picks among several ready ones: the methods in `DagHandlers.dfy` fix it, the steps, and with them the theorems about runs, allow any.
- Hop ids that look like integers, which JavaScript objects list first, and inherited properties of objects read by conditions: entries are kept in definition order, records have their own keys only, and arrays their indexes and `length`.
- Conditions: numbers are reals without NaN and infinities, objects and arrays have no identity, so `===` between two of them is false, and the coercion of strings and arrays to numbers is a parameter.
- DagValidation.ValidateDAG: models whether errors are reported, not their texts.
- CircularDeps.FindCircularDeps: task ids are integers, since they are only compared; not every task on a cycle is marked, and none of the statements says so.
- TaskDispatcher.GreedyDispatch: throttle reasons are tags, so a team whose name ends in "global", whose denial the source mistakes for the global interval, is not modelled; resources are not reserved within a poll, as in the source, so no exclusion between assignments of one poll is claimed; orchestrator and lead lookups stand for the whole organisation chart.
- MurmurLock.NoLostUpdates: the manager's state and its callers are values that steps transform, not an object, because every await lets other callers run; a corrupt state file, which reads as the default state, is not modelled.
- ChatDelivery.ExactlyOnce: the queue's reset helper and the events it emits are not modelled; ids are fresh.
- SpawnBridge.HandOutsArePaidFor: the same, and a release may name an id that was never claimed, as in the source, and then pays for a hand-out.
- DeliveryCursor.DeliveredIsPrefix: excludes overlapping passes and a session that succeeds without its cursor update being stored; `OverlapDuplicatesIff` and `LostUpdateDuplicatesIff` say exactly what these do. The recovery path, which also closes the subscription, is another pass.
- Callback depth limits, retry counts and completion callbacks: the retry path does not apply the depth check, so there is no bound over whole runs to state.
- Handoff.RoundTrip: lower-casing is exact for the words the parser compares with, not for other text.
- Summary.RoundTrip: the same; test counts are natural numbers of any size, where JavaScript loses precision beyond 2^53; a present but empty list of warnings parses as absent.
- Assembler.AssembleContext: resolvers are a map from reference to content, the card's front matter is its printed text, and lengths are in characters where JavaScript counts UTF-16 units; loading and defaulting of manifests is not modelled.
- Levenshtein.FindClosest: strings are sequences of characters where JavaScript compares UTF-16 units.
- Drift detection, service-level checks, statistics, backlog promotion, command line, daemon, HTTP and socket layers, memory and archive: plumbing, or one-branch facts.
