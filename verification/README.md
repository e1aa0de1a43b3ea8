# Models of the agent runtime

Dafny models of the parts of the runtime whose correctness rests on an argument rather than on reading one body,
with the arguments. `dafny verify dfyconfig.toml` checks everything. One module stands for one source file or one
shared notion; a method carries out what the code does step by step and is proved against a specification
function or property, and the lemmas are about those.

| module | what it is about |
|---|---|
| `Graphs` | dependency graphs, walks, cycles: acyclic means no closed walk |
| `Validator` | the queue algorithm that orders a plan, and the id rules of the plan gate |
| `StepStates`, `TaskGraphs`, `Executors`, `Runs` | step states, the mutable task graph, the parallel scheduling loop, and runs through crashes |
| `Scheduler`, `QuietHours` | the durable job graph with retries, deadlines, priorities and crash requeue |
| `JobEnds` | over any run: which jobs succeeded, failed or were cancelled, and through which operation |
| `Budgets` | when the attempts left to queued jobs, counted plainly, go down over a tick |
| `Ticks` | a tick as a listing and attempts on its copies, with cancellations in between |
| `Audit` | the hash-chained log |
| `Sync` | two-sided synchronization with acknowledgements |
| `JsonScan` | the brace scanner over model text, against a JSON printer (RFC 8259 sections 4 and 7) |
| `Recovery` | classification, policy, and the execute / verify / recover loop |
| `Gateway` | pairing codes, sessions, revocation, the replay window |
| `Proactive` | paced proposals and their life cycle |
| `Messages` | the bounded message bus and its relays |
| `Circuit` | the circuit breaker under interleaved callers |

Threads, clocks, randomness and callbacks are the environment. Waiting for workers returns any set of running
steps; a callback is an arbitrary function or an arbitrary outcome; a clock reading is a parameter that is no
earlier than the one before; identifiers and tokens drawn at random are parameters that are fresh. A locked block
is one step.

## What the proofs found

Where a claim of the documentation, or one that suggests itself, is not true of the code, the model keeps the code,
one lemma or method shows an input, and another says exactly when the claim holds.

- **Fail-fast ends with the process.** The halt is a local flag of the loop, so a graph that holds a failure is run on
  after a crash (`Runs.FailFastEndsAtCrash`). Whatever failed before, a run that is not cancelled starts a step exactly
  if one is ready in the graph it is given (`Executors.ParallelExecutor.ExecuteGraph`, `Runs.FailFastRerun`).
- **The defensive drain can skip a step that could run.** The loop reads the cancellation token twice per iteration; if
  it is set between the readings, nothing is stopped, nothing is submitted, and with nothing in flight the drain skips
  what is pending (`Executors.ParallelExecutor.CancelBetweenReadings`). That is the only way: the drain spoils a run
  exactly if the token was off at the first reading and on at the second, nothing had halted, and a step was ready
  (`Executors.ParallelExecutor.DrainHarmsIff`).
- **One skip pass can lag.** `mark_unsatisfiable` goes through the nodes once in plan order
  (`TaskGraphs.SkipPassMayLag`). Over all state maps, hand-made snapshots included, it is complete exactly for the plans
  in which a dependency listed after its dependent waits only for what that dependent waits for as well
  (`TaskGraphs.SkipPassClosesIff`). Over the consistent maps of undisturbed runs it is complete exactly if, for each
  step `d`, one walk down the plan that marks every step depending on `d` or on a step marked before leaves no step
  unmarked that depends on `d` or on a marked one (`TaskGraphs.UndisturbedPassClosesIff`).
- **The plain attempt budget is not a termination measure for ticks.** After a crash requeue a job may be attempted
  beyond `max_attempts` (`Scheduler.PlainBudgetStalls`). The sum of `max_attempts - attempts` over the queued jobs drops
  over a tick, whatever the dispatches do, exactly if the ready jobs within their limit and what overdue jobs had left
  outweigh the overdraw of the ready jobs (`Budgets.PlainDropsIff`); only requeued jobs are overdrawn. Counting at least
  one attempt for every queued job gives a measure that always works (`Scheduler.TickUsesTokens`).
- **The scheduler's cycle check only ever meets resubmissions.** In a reachable store it fires exactly if the id is
  stored and a dependency of the candidate depends on the stored job (`Scheduler.CycleCheckFiresIff`; such a candidate
  in `Scheduler.CycleCheckCanFire`). The store would refuse the taken id in any case.
- **A cancellation during a tick can be lost.** A tick attempts copies listed at its start and takes no lock
  (`Ticks.CancelLost`). The cancellation is final exactly if the tick has not listed the job or is done with it
  (`Ticks.CancelHoldsIff`).
- **The end of the audit chain is open** (`Audit.EndIsOpen`). Deleting a tail, or replacing the last record by another
  well-hashed one, is not noticed; every other deletion or edit is (`Audit.DeletionUndetectedIffPrefix`,
  `Audit.EditUndetectedIff`). If a tail is deleted under a running process, its next record gives the deletion away; if
  the process is restarted first, nothing ever does (`Audit.NextRecordShows`).
- **A death during rotation breaks the chain.** Rotation deletes the rows one by one before it writes the checkpoint.
  Dying in between leaves the end of the chain, which no longer verifies unless no row or every row was deleted
  (`Audit.AuditLog.CrashWhileRotating`, `Audit.DeathInRotation`).
- **A foreign version can be overwritten silently.** Conflicts are documented as never silently overwritten. But a run
  that leaves an object out acknowledges the foreign version, and the next run with the object pushes over it as the
  newer one: no conflict is reported and nobody has resolved anything (`Sync.LostSilently`). Over any operations, the
  foreign version stays exactly if nobody replaces it on purpose and no run with a differing uploadable object, whose
  push gets through, comes after an operation that acknowledged it (`Sync.ForeignSurvivesIff`).
- **Keeping the remote side does not last.** Acknowledging the remote version makes the local object look newer, so the
  next run pushes over what was kept (`Sync.KeptRemotePushedOver`). It survives exactly if the local object may not be
  uploaded or matches (`Sync.KeptRemoteIsSafeIff`).
- **Permission failures can be retried.** The policy's documentation says they never are under any policy
  (`Recovery.PermissionCanBeRetried`); an override is consulted first, and exactly that decides
  (`Recovery.PermissionRetriedIffOverridden`, `Recovery.PermissionEntries`).
- **Collection and checks disagree at one instant.** A code or session is still good at the very instant it expires, but
  collection at that instant drops it (`Gateway.GcDropsAtExpiry`), and that is the only difference
  (`Gateway.GcChangesNoLaterVerdict`).
- **A relay refused as a loop need not be one.** The counter counts tries, delivered or not
  (`Messages.RefusedWithoutDelivery`), and over all messages of one correlation id. No message goes along a route twice
  (`Messages.MessageAlongOnce`). So for a hop limit of two or more a refusal never meets one message that went along the
  route as often as hops are allowed, and for a limit of one it does exactly if the first try was delivered
  (`Messages.LoopIsRealIff`).
- **A raising verifier leaves a proposal approved**, so that it can be executed again (`Proactive.ExecutedTwice`). A
  proposal is run once, and once more for each time its verifier raised (`Proactive.ProactiveEngine.Execute`).
- **A breaker's trial is not always alone.** The documentation says that in half-open exactly one caller probes and
  the rest fail fast until the probe is resolved. That holds exactly when no call admitted earlier is still running
  (`Circuit.TrialAloneIff`; two probes at once in `Circuit.TwoTrials`). And a probe that ends with a circuit-open
  error of its own, as in nested breakers, shuts the breaker for good exactly when no other call is running
  (`Circuit.TrialLeavesShutIff`; a run that gets there in `Circuit.ShutForGood`).

## Reading the specifications

- `Validator.GraphOf` maps ids to dependency lists; `Graphs.Edge(g, a, b)` says that `a` depends on `b`, and
  `Graphs.Reaches` is its transitive closure.
- `StepStates.Settled(g, outcome, m)`: each step of `m` has run to its own outcome and all its dependencies
  succeeded, or it is skipped and some dependency ended badly. It looks at direct dependencies only; what it means
  for transitive ones is proved.
- `StepStates.LegalLog` and `Replay`: a run as a list of state changes, each allowed at its place.
- `Executors.RunInv` is the invariant of the scheduling loop, `EndsWell` what it leaves behind, `Restartable` what a
  crash leaves behind.
- `Scheduler.Apply` and `Run`, `Sync.Apply` and `RunOps`: one operation and any run of operations on the stored state.
  `Scheduler.Inv` holds the safety properties: acyclic and closed dependencies, one job per idempotency key, attempts
  within the budget plus the requeues, and only jobs with succeeded dependencies ever attempted.
- `Scheduler.EndsAs` and `TickedAs` say field by field what an attempt and a tick make of a job. `JobEnds.LegalRun`: the
  jobs a crash cut off are not those it let end, which `Scheduler.GlobalScheduler.CrashDuringTick` ensures.
- `Sync.Treated` says what a run reports of an object and makes of its two sides, `Sync.RunFails` when it fails as a
  whole; both are stated over policy tables, versions and hashes.
- `Recovery.Ends` is what every outcome of the loop satisfies; in it `Told`, `Responds` and `HasClass` hold the audit
  against the executions it answers, and `LedOn` and `Stopped` say what each answer led to.
- `StepStates.Answered`: what has run to an end since `m0` is in the state its own answer calls for.
- `Audit.Intact`: the stored rows, in any order, are the records of one chain from genesis. The hash is any injective
  function that never yields the genesis marker.
- `Gateway.Unused`, `Proactive.MayFire`, `Circuit.MayEnter`: rules over everything that ever happened, which the
  pruned or summarized state is proved to decide.

## Model

| member | source | states |
|---|---|---|
| `Graphs.StuckMeansCycle` | src/ai_ecosystem/agent/planner/validator.py:46-47 | steps that all wait for one another contain a dependency cycle: why an incomplete order means a real cycle |
| `Graphs.RankExists` | src/ai_ecosystem/agent/planner/validator.py:18-23 | an acyclic graph can be ranked so that every dependency is lower: the induction that order and executor proofs go by |
| `Graphs.RankMeansAcyclic` | src/ai_ecosystem/agent/planner/validator.py:18-23 | a graph with such ranks is acyclic |
| `Graphs.TopologicalMeansAcyclic` | src/ai_ecosystem/agent/planner/validator.py:23-48 | an order with every dependency before its dependents certifies that there is no cycle |
| `Graphs.ReplaceClosesIff` | src/ai_ecosystem/scheduler/scheduler.py:95-112 | in an acyclic graph, giving an id other dependencies closes a cycle if and only if one of them reaches the id |
| `Validator.CheckDependencies` | src/ai_ecosystem/agent/planner/validator.py:25-30 | reports the first self-dependency or unknown dependency in plan order, and nothing exactly when there is none |
| `Validator.BuildIndex` | src/ai_ecosystem/agent/planner/validator.py:31-36 | for unique ids, counts and child lists have each dependency with its multiplicity, duplicate entries included |
| `Validator.InitiallyReady` | src/ai_ecosystem/agent/planner/validator.py:37 | the queue starts with exactly the ids that wait for nothing, each once |
| `Validator.Release` | src/ai_ecosystem/agent/planner/validator.py:42-45 | the child loop restores the invariant: counts are the unplaced dependencies, the queue holds the unplaced ids that wait for nothing; it also consumes the loop's measure |
| `Validator.EmptyQueue` | src/ai_ecosystem/agent/planner/validator.py:38-45 | the queue loop ends on every input, outputs only given steps, and for unique ids ends in the invariant with an empty queue |
| `Validator.KahnExit` | src/ai_ecosystem/agent/planner/validator.py:46-48 | with an empty queue either every id is output in dependency order or there is a cycle |
| `Validator.KahnDecides` | src/ai_ecosystem/agent/planner/validator.py:46-48 | the length test at the end succeeds if and only if the graph is acyclic, and then the output is a permutation in dependency order |
| `Validator.Order` | src/ai_ecosystem/agent/planner/validator.py:22-48 | for unique ids it succeeds if and only if all dependencies are known and acyclic, with a permutation in dependency order; a cycle error means a real cycle; any other error names the first bad dependency |
| `Validator.BadMeansRejected` | src/ai_ecosystem/agent/planner/validator.py:25-30 | the early check refuses no plan that could be ordered: what it reports rules out a closed acyclic graph |
| `Validator.Validate` | src/ai_ecosystem/agent/planner/validator.py:80-98 | the id and dependency part of the gate passes exactly plans of 1 to max(1, max_steps) steps with non-empty unique ids, known dependencies and no cycle, and returns the plan unchanged; the refusals for number, missing and repeated ids come exactly in that order |
| `StepStates.MovesMean` | src/ai_ecosystem/agent/executor/graph.py:22-52 | the allowed moves one by one; a step has ended exactly if no move is left, and badly exactly if it ended without success |
| `StepStates.ConsistentStep` | src/ai_ecosystem/agent/executor/graph.py:36-52 | moving steps forward keeps a consistent state map consistent if the moved steps themselves are in order |
| `StepStates.ConsistentEndsSettled` | src/ai_ecosystem/agent/executor/executor.py:129-149 | a consistent map with every step ended and none cancelled is settled |
| `StepStates.SettledUnique` | src/ai_ecosystem/agent/executor/executor.py:128-149 | on an acyclic graph the outcomes of the steps determine the final states: nothing of the schedule, the concurrency limit or crashes is left in them |
| `StepStates.CyclicNotUnique` | src/ai_ecosystem/agent/executor/graph.py:105 | without the cycle check that fails: a two-cycle has two settled maps |
| `StepStates.ExactOutcome` | src/ai_ecosystem/agent/executor/executor.py:238-247 | in a settled map no step is cancelled; with all transitive dependencies succeeded a step is succeeded, timed out or failed exactly as it answered ok, not ok and late, or not ok in time; and it is skipped if and only if one of them failed or timed out |
| `StepStates.CompletesIffAllOk` | src/ai_ecosystem/agent/executor/executor.py:304-309 | all steps succeed if and only if each of them on its own would |
| `StepStates.TerminalAbsorbs` | src/ai_ecosystem/agent/executor/graph.py:36-52 | in any legal run a step that has ended is never touched again |
| `StepStates.ConcurrencyBound` | src/ai_ecosystem/agent/executor/executor.py:178-192 | at no point of a legal run are more steps running than the limit |
| `StepStates.StartsAfterDependencies` | src/ai_ecosystem/agent/executor/graph.py:112-120 | whenever a step starts all its dependencies have succeeded, and they stay so |
| `StepStates.StartsOnce` | src/ai_ecosystem/agent/executor/executor.py:178-184 | no step starts twice in one run |
| `StepStates.FirstStart` | src/ai_ecosystem/agent/executor/executor.py:132-133 | the first start of any legal run is of a step that was ready at the outset |
| `StepStates.QuietLog` | src/ai_ecosystem/agent/executor/executor.py:178-184 | a run without a start brings no step into a state only started steps get into |
| `TaskGraphs.GraphNode.Transition` | src/ai_ecosystem/agent/executor/graph.py:69-78 | moves exactly along the allowed edges, listed one by one; an illegal move is refused and changes nothing |
| `TaskGraphs.GraphNode.Load` | src/ai_ecosystem/agent/executor/graph.py:183-213 | what one saved entry makes of a fresh node: a running or unknown state gives a pending, interrupted node, a corrupt entry too but with the attempts read before the bad field, a non-entry changes nothing, and any other entry is taken over |
| `TaskGraphs.TaskGraph.FromPlan` | src/ai_ecosystem/agent/executor/graph.py:84-106 | builds a graph of fresh pending nodes in plan order, exactly from plans with unique ids, known dependencies and no cycle |
| `TaskGraphs.TaskGraph.Get` | src/ai_ecosystem/agent/executor/graph.py:108-110 | the node of a known id |
| `TaskGraphs.TaskGraph.Ready` | src/ai_ecosystem/agent/executor/graph.py:112-120 | exactly the pending nodes whose dependencies all succeeded, in plan order |
| `TaskGraphs.ReadyIdsExact` | src/ai_ecosystem/agent/executor/graph.py:112-120 | each step is listed if and only if it is pending and all its dependencies succeeded, and at most once |
| `TaskGraphs.ReadyInOrder` | src/ai_ecosystem/agent/executor/graph.py:112-120 | and in the order of the plan |
| `TaskGraphs.TaskGraph.SkipIfBlocked` | src/ai_ecosystem/agent/executor/graph.py:126-140 | one node of the pass: skipped exactly if it is pending and a dependency failed, timed out, was cancelled or skipped; the state map changes at that node alone |
| `TaskGraphs.TaskGraph.MarkUnsatisfiable` | src/ai_ecosystem/agent/executor/graph.py:122-141 | the pass over the live nodes is the left-to-right pass over the state map; what it returns are exactly the nodes it skipped, in plan order |
| `TaskGraphs.SkippedExactly` | src/ai_ecosystem/agent/executor/graph.py:122-141 | the ids returned are exactly those of pending steps the pass turned into skipped ones |
| `TaskGraphs.SkipPassKeeps` | src/ai_ecosystem/agent/executor/graph.py:122-141 | the pass only turns pending steps into skipped ones and keeps a consistent map consistent |
| `TaskGraphs.SkipPassClosesOrderedPlan` | src/ai_ecosystem/agent/executor/graph.py:122-141 | in particular it does for plans that list dependencies first |
| `TaskGraphs.SkipPassClosesIff` | src/ai_ecosystem/agent/executor/graph.py:122-141 | one pass closes every state map, hand-made ones included, if and only if each dependency listed after its dependent has only dependencies of that dependent |
| `TaskGraphs.UndisturbedPassClosesIff` | src/ai_ecosystem/agent/executor/graph.py:122-141 | for an acyclic plan, one pass closes every consistent state map without ready steps if and only if for each step d, marking the steps that depend on d or on a marked step in one walk down the plan marks all of them |
| `TaskGraphs.SkipPassMayLag` | src/ai_ecosystem/agent/executor/graph.py:122-141 | a plan and a state map for which it does not |
| `TaskGraphs.TaskGraph.NodeMoved` | src/ai_ecosystem/agent/executor/graph.py:69-78 | changing one node in place changes the state map at its id and nowhere else |
| `TaskGraphs.TaskGraph.Done` | src/ai_ecosystem/agent/executor/graph.py:143-145 | true exactly when every step has ended |
| `TaskGraphs.TaskGraph.SnapshotKeeps` | src/ai_ecosystem/agent/executor/graph.py:147-214 | the round trip: restoring a snapshot gives back every state, running ones as pending |
| `TaskGraphs.TaskGraph.Restore` | src/ai_ecosystem/agent/executor/graph.py:165-214 | for any snapshot, damaged or not, succeeds exactly on well-formed plans, and every node comes back as its entry says; entries for unknown ids do not matter |
| `Executors.StartKeeps` | src/ai_ecosystem/agent/executor/executor.py:178-192 | starting ready steps keeps the map consistent |
| `Executors.CollectKeeps` | src/ai_ecosystem/agent/executor/executor.py:227-256 | so does collecting running ones with their outcomes |
| `Executors.CrashKeeps` | src/ai_ecosystem/agent/executor/graph.py:190-193 | so does a crash and restore |
| `Executors.DrainKeeps` | src/ai_ecosystem/agent/executor/executor.py:286-297 | with nothing running, the drain keeps it if and only if no pending step has all its dependencies succeeded; when the loop gets there is said by DrainHarmsIff |
| `Executors.ParallelExecutor.DrainMeetsReadyIff` | src/ai_ecosystem/agent/executor/executor.py:130-135 | when nothing runs after the start of an iteration, a ready step is left for the drain if and only if the token was off at the first reading, on at the second, nothing had halted and a step was ready before |
| `Executors.ParallelExecutor.DrainHarmsIff` | src/ai_ecosystem/agent/executor/executor.py:130-138 | so the drain makes a consistent run inconsistent in exactly that case |
| `Executors.ParallelExecutor.CancelBetweenReadings` | src/ai_ecosystem/agent/executor/executor.py:130-138 | a one-step plan in which it skips the step that could run |
| `Executors.ReadyMeans` | src/ai_ecosystem/agent/executor/graph.py:112-120 | the ready list holds exactly the pending steps whose dependencies, read off the graph, all succeeded |
| `Executors.WorkDrops` | src/ai_ecosystem/agent/executor/executor.py:129-149 | twice the pending steps plus the running ones never grows and drops when a step leaves either state for good |
| `Executors.FailureShows` | src/ai_ecosystem/agent/executor/executor.py:300-301 | while the state map shows no failure none was collected: why the halt test sees every failure |
| `Executors.ListsAnswered` | src/ai_ecosystem/agent/executor/executor.py:315-333 | however a run ended: a step listed as succeeded, timed out or failed that was not in that state before answered ok, not ok and late, or not ok in time |
| `Executors.ListsExact` | src/ai_ecosystem/agent/executor/executor.py:315-333 | the lists of a run that settled: a step is in each of them if and only if its transitive dependencies and its own answer say so, and none is cancelled |
| `Executors.ListInOrder` | src/ai_ecosystem/agent/executor/executor.py:320-323 | each list is in plan order |
| `Executors.BucketsPartition` | src/ai_ecosystem/agent/executor/executor.py:315-333 | once every step has ended, the five result lists together hold each step id exactly once |
| `Executors.CrashLeaves` | src/ai_ecosystem/agent/executor/executor.py:339-348 | a crash at a persist point leaves a graph from which the next run can start, consistent unless cancelled or halted |
| `Executors.RunEnds` | src/ai_ecosystem/agent/executor/executor.py:129-149 | when every step has ended without cancellation, the states are the settled ones unless a failure halted the run, and a step is cancelled only then |
| `Executors.CompletedIff` | src/ai_ecosystem/agent/executor/executor.py:303-309 | under either policy an uncancelled run completes if and only if every step on its own would succeed |
| `Executors.CancellationToken.Read` | src/ai_ecosystem/agent/executor/cancellation.py:19-29 | once set the flag stays set |
| `Executors.ParallelExecutor.Create` | src/ai_ecosystem/agent/executor/executor.py:68-71 | a limit below one or a default timeout that is not positive is refused, any other pair accepted |
| `Executors.ParallelExecutor.StartOne` | src/ai_ecosystem/agent/executor/executor.py:178-192 | starts one ready step: it alone changes, it joins the in-flight set, and the start is logged |
| `Executors.ParallelExecutor.SubmitReady` | src/ai_ecosystem/agent/executor/executor.py:169-192 | starts the first ready steps in plan order, each legally, until none is left or the limit is reached and never beyond it; the in-flight set is the set of running steps |
| `Executors.ParallelExecutor.CollectOne` | src/ai_ecosystem/agent/executor/executor.py:227-256 | collects one finished step: it alone changes, to the state its outcome and deadline call for, and that is logged |
| `Executors.ParallelExecutor.CollectCompleted` | src/ai_ecosystem/agent/executor/executor.py:217-256 | every finished step gets the state its outcome and deadline call for, in whatever order they are collected |
| `Executors.ParallelExecutor.StopUnstarted` | src/ai_ecosystem/agent/executor/executor.py:274-284 | cancels exactly the steps that have not started |
| `Executors.ParallelExecutor.DrainStuck` | src/ai_ecosystem/agent/executor/executor.py:286-297 | skips exactly the steps that have not started, and reports whether there were any |
| `Executors.ParallelExecutor.SkipUnsatisfiable` | src/ai_ecosystem/agent/executor/executor.py:141-146 | the skip pass inside the loop, logged |
| `Executors.ParallelExecutor.StartPhase` | src/ai_ecosystem/agent/executor/executor.py:130-133 | with two readings of the token, the second possibly later than a cancellation: the new state map is exactly stop, then submit, as the readings say; the loop invariant holds, and if nothing is then in flight and nobody cancelled, no step is ready |
| `Executors.ParallelExecutor.DrainPhase` | src/ai_ecosystem/agent/executor/executor.py:134-138 | skips exactly what is pending, after which every step has ended; the invariant holds if, without cancellation, nothing was ready, which StartPhase provides |
| `Executors.ParallelExecutor.SettlePhase` | src/ai_ecosystem/agent/executor/executor.py:139-149 | the new state map is the skip pass over the collected one; the halt flag goes up exactly under fail-fast with a failed or timed-out step; the invariant holds and collecting uses up work |
| `Executors.ParallelExecutor.Iterate` | src/ai_ecosystem/agent/executor/executor.py:129-149 | one iteration is start, then drain if nothing runs or else settle, exactly; it keeps the invariant, an iteration that collects anything uses up work, and so does any other but an idle poll |
| `Executors.ParallelExecutor.IterationStarts` | src/ai_ecosystem/agent/executor/executor.py:129-149 | the first iteration of an undisturbed run starts a step if one is ready |
| `Executors.ParallelExecutor.StartsMean` | src/ai_ecosystem/agent/executor/executor.py:128-133 | a legal run starts a step only if one is ready at the outset, and has started one if a pending step has run |
| `Executors.ParallelExecutor.Loop` | src/ai_ecosystem/agent/executor/executor.py:125-149 | the loop ends, and unless the process died every step has ended and, uncancelled, a step has run if one was ready; a saved snapshot restores to the state at the crash |
| `Executors.ParallelExecutor.Aggregate` | src/ai_ecosystem/agent/executor/executor.py:312-337 | the result lists are the ids in each state in plan order |
| `Executors.ParallelExecutor.OverallStatusOf` | src/ai_ecosystem/agent/executor/executor.py:304-309 | cancelled if the token is set, completed if and only if otherwise all steps succeeded, else failed |
| `Executors.ParallelExecutor.ExecuteGraph` | src/ai_ecosystem/agent/executor/executor.py:103-167 | a whole run: a legal log that replays to the final states; under fail-fast no start after a collected failure; uncancelled, a start if and only if a step is ready in the given graph; cancelled or not, what ran to an end is in the state, and in the result list, its own answer calls for; settled states if neither cancelled nor halted, and cancelled steps only after a failure; after a crash a snapshot to restart from |
| `Runs.HistoryGrows` | src/ai_ecosystem/agent/executor/graph.py:164-214 | a legal run after any history keeps it so that what has ended is not touched again, shows in the state map, and is all that has ended there |
| `Runs.RunThroughCrashes` | src/ai_ecosystem/agent/executor/graph.py:164-214 | build, run, crash and restore any number of times under any limits: without cancellation the end is the settled map; over the whole history no step is touched, let alone started, after it has ended, and every end is in the history |
| `Runs.HistoriesAgree` | src/ai_ecosystem/agent/executor/executor.py:103-167 | two histories of one plan with different schedules, limits and crashes end in the same states, and these are the exact outcomes |
| `Runs.OutcomesOf` | src/ai_ecosystem/agent/executor/executor.py:122-149 | in the end no step is cancelled, and one is skipped if and only if a transitive dependency failed or timed out |
| `Runs.FailFastEndsAtCrash` | src/ai_ecosystem/agent/executor/executor.py:125-149 | a legal fail-fast run whose crash leaves a graph with a failure and a ready step |
| `Runs.FailFastRerun` | src/ai_ecosystem/agent/executor/executor.py:125-149 | the run after the crash of a fail-fast run starts a step if and only if one is ready in the restored graph, whatever had failed |
| `Scheduler.CycleCheck.Visit` | src/ai_ecosystem/scheduler/scheduler.py:100-109 | the recursion ends; it fails only on a real cycle, and success leaves the branch as it was with the node finished |
| `Scheduler.AssertAcyclic` | src/ai_ecosystem/scheduler/scheduler.py:93-112 | passes if and only if the graph is acyclic, edges to unknown ids aside: the same graphs the plan order accepts when all ids are known |
| `Scheduler.FreshJobClosesNoCycle` | src/ai_ecosystem/scheduler/scheduler.py:85-89 | a new job whose dependencies are all stored cannot close a cycle |
| `Scheduler.CycleCheckIsRedundant` | src/ai_ecosystem/scheduler/scheduler.py:85-90 | for a fresh id the check never fires in a reachable store |
| `Scheduler.CycleCheckFiresIff` | src/ai_ecosystem/scheduler/scheduler.py:85-90 | in a reachable store it fires if and only if the id is stored and some dependency of the candidate reaches it |
| `Scheduler.CycleCheckCanFire` | src/ai_ecosystem/scheduler/scheduler.py:89-98 | a resubmission that it refuses |
| `Scheduler.SettledAbsorbs` | src/ai_ecosystem/scheduler/scheduler.py:114-136 | no operation changes a succeeded, failed or cancelled job |
| `Scheduler.SettledForGood` | src/ai_ecosystem/scheduler/scheduler.py:114-195 | over any run of operations, what a job settled to is final; for cancellations that fall into a tick see Ticks.CancelHoldsIff |
| `Scheduler.StepKeepsInv` | src/ai_ecosystem/scheduler/scheduler.py:73-195 | every operation, a crash in the middle of a listing or a tick included, keeps the safety invariant |
| `Scheduler.RunsAreSafe` | src/ai_ecosystem/scheduler/scheduler.py:73-195 | over every run from the empty store: acyclic closed graph, jobs attempted only after their dependencies succeeded, attempts at most the budget plus the requeues, one job per idempotency key |
| `Scheduler.IdleMeansBlocked` | src/ai_ecosystem/scheduler/scheduler.py:141-161 | no deadlock: in an idle reachable store every queued job transitively depends on a failed or cancelled one |
| `Scheduler.TickUsesTokens` | src/ai_ecosystem/scheduler/scheduler.py:124-126 | a tick never adds to the attempts that may still come, and uses some up whenever it finds work |
| `Scheduler.ProductiveTicksBounded` | src/ai_ecosystem/scheduler/scheduler.py:124-126 | without new submissions or requeues only that many ticks find work, whatever the outcomes |
| `Scheduler.PlainBudgetStalls` | src/ai_ecosystem/scheduler/scheduler.py:128-136 | a reachable run in which a requeued job is attempted beyond its budget and the plain sum does not drop |
| `Scheduler.TickExact` | src/ai_ecosystem/scheduler/scheduler.py:124-195 | a tick, field by field: an overdue job fails; outside quiet hours a queued job in time whose dependencies all succeeded gets one attempt more and ends SUCCEEDED exactly if the dispatch completed, QUEUED exactly if it raised with attempts left, and else FAILED; no other job changes |
| `Scheduler.CrashExact` | src/ai_ecosystem/scheduler/scheduler.py:124-195 | the same for a tick the process dies in: jobs cut off are RUNNING with one attempt more |
| `Scheduler.RankedBestFirst` | src/ai_ecosystem/scheduler/scheduler.py:160 | ready jobs come by priority, highest first, among equals by age, oldest first, and only then by id |
| `Scheduler.LexLeMeans` | src/ai_ecosystem/scheduler/scheduler.py:160 | the comparison of ids: a prefix first, else by the first character that differs |
| `Scheduler.PrecedesTotal` | src/ai_ecosystem/scheduler/scheduler.py:160 | any two jobs are ordered by priority, age and id |
| `Scheduler.PrecedesTransitive` | src/ai_ecosystem/scheduler/scheduler.py:160 | and that order is transitive, so sorting by it is well defined |
| `Scheduler.GlobalScheduler.SubmitJob` | src/ai_ecosystem/scheduler/scheduler.py:73-90 | stores exactly an acceptable job and changes nothing otherwise; each refusal comes exactly if its reason holds and no earlier one does; a duplicate names the stored job with that key |
| `Scheduler.GlobalScheduler.CancelJob` | src/ai_ecosystem/scheduler/scheduler.py:114-122 | turns exactly a known queued job into a cancelled one |
| `Scheduler.GlobalScheduler.Ready` | src/ai_ecosystem/scheduler/scheduler.py:141-161 | outside quiet hours lists exactly the queued jobs in time whose dependencies succeeded, best first; overdue jobs are failed on the way when asked, and doing so along the way or first makes no difference |
| `Scheduler.GlobalScheduler.RunOne` | src/ai_ecosystem/scheduler/scheduler.py:163-195 | one attempt: one more is counted; SUCCEEDED exactly if the dispatch completed, QUEUED exactly if it raised with attempts left, and else FAILED |
| `Scheduler.GlobalScheduler.TickOnce` | src/ai_ecosystem/scheduler/scheduler.py:124-126 | a tick attempts exactly the queued jobs in time whose dependencies succeeded, each once, best first; every stored job ends as Scheduler.TickExact says, and the store changes by the tick operation |
| `Scheduler.GlobalScheduler.CrashDuringTick` | src/ai_ecosystem/scheduler/scheduler.py:126-167 | a process death while jobs are run leaves the store as after the jobs before it, with at most one job marked running |
| `Scheduler.GlobalScheduler.CrashWhileListing` | src/ai_ecosystem/scheduler/scheduler.py:141-153 | a death in the listing pass leaves only the jobs it had come to checked for their deadline |
| `Scheduler.GlobalScheduler.ResumeInterrupted` | src/ai_ecosystem/scheduler/scheduler.py:128-136 | requeues exactly the running jobs |
| `Scheduler.GlobalScheduler.RunUntilIdle` | src/ai_ecosystem/scheduler/scheduler.py:124-126 | ticking until nothing is ready stops, and then every queued job waits for a failed or cancelled one |
| `JobEnds.EndsByCause` | src/ai_ecosystem/scheduler/scheduler.py:114-195 | one operation ends an unsettled job exactly by a completed attempt, by a missed deadline or an attempt that failed for good, or by a cancellation while it is queued |
| `JobEnds.EndsIffCause` | src/ai_ecosystem/scheduler/scheduler.py:73-195 | over any run from the empty store: a job is SUCCEEDED if and only if some tick or crash attempted it, ready and in time, with a completed dispatch; FAILED if and only if one found it overdue or its attempt failed for good; CANCELLED if and only if it was cancelled while queued |
| `Budgets.JobDropsIff` | src/ai_ecosystem/scheduler/scheduler.py:163-195 | every attempt lowers what the limit leaves a queued job if and only if the job is within its limit |
| `Budgets.RunningChanges` | src/ai_ecosystem/scheduler/scheduler.py:124-195 | running the ready jobs changes the sum at most by the overdraw of the overdrawn ones less one for each other, and by exactly that if all dispatches raise |
| `Budgets.PlainDropsIff` | src/ai_ecosystem/scheduler/scheduler.py:124-195 | over a tick the sum drops for all outcomes if and only if the ready jobs within their limit, with what overdue jobs had left, outweigh the total overdraw of the ready ones |
| `Budgets.OverdrawnWasRequeued` | src/ai_ecosystem/scheduler/scheduler.py:128-136 | in a reachable store a queued job is beyond its limit only after a requeue |
| `Budgets.PlainDropsWithoutRequeues` | src/ai_ecosystem/scheduler/scheduler.py:124-195 | so without requeues every tick with a ready job lowers the sum |
| `Ticks.CancelHoldsIff` | src/ai_ecosystem/scheduler/scheduler.py:114-126 | a cancellation during a tick is final if and only if the job is not among those the tick has listed and not yet attempted |
| `Ticks.CancelLost` | src/ai_ecosystem/scheduler/scheduler.py:124-167 | a listed job that is cancelled, runs and succeeds |
| `Ticks.UndisturbedIsTick` | src/ai_ecosystem/scheduler/scheduler.py:124-126 | a tick nobody interferes with, attempting its copies in any order, is the tick operation |
| `QuietHours.QuietHoursWrap` | src/ai_ecosystem/scheduler/scheduler.py:207-214 | quiet hours are the hours from start to end on the clock face, across midnight or not |
| `Audit.GoodHashExists` | src/ai_ecosystem/security/audit.py:25-35 | a hash that is injective and never yields the genesis marker exists |
| `Audit.PrevDiffers` | src/ai_ecosystem/security/audit.py:25-35 | no two records of a chain link to the same hash |
| `Audit.ChainDistinct` | src/ai_ecosystem/security/audit.py:129-131 | so an intact log never looks forked |
| `Audit.ChainsAgree` | src/ai_ecosystem/security/audit.py:137-142 | two chains over the same rows agree: inside the records of one chain every chain follows it from genesis |
| `Audit.Walk` | src/ai_ecosystem/security/audit.py:137-142 | following the links ends, and the count it returns equals the number of rows if and only if the rows are one chain |
| `Audit.WalkDecides` | src/ai_ecosystem/security/audit.py:143-145 | a chain that no row continues uses up all rows if and only if the rows are one chain |
| `Audit.Verify` | src/ai_ecosystem/security/audit.py:116-149 | accepts if and only if the rows, in any order, form one chain from genesis with correct hashes; a bad row, a fork and a missing head are each reported exactly if they are the first objection; a chain with the content of one row changed is refused with the id of that row |
| `Audit.IntactMeans` | src/ai_ecosystem/security/audit.py:117-122 | an intact log has every hash correct, every link once, and a head |
| `Audit.HashCoversFields` | src/ai_ecosystem/security/audit.py:25-35 | two well-hashed records have the same hash if and only if they agree in id, content and link |
| `Audit.HashStaysIff` | src/ai_ecosystem/security/audit.py:147-149 | a well-hashed record that is changed under its stored hash stays well-hashed if and only if only the storage stamp changes |
| `Audit.EditedRowStandsOut` | src/ai_ecosystem/security/audit.py:123-126 | a row of a chain whose content was changed is the only one with a wrong hash |
| `Audit.DeletionUndetectedIffPrefix` | src/ai_ecosystem/security/audit.py:116-145 | removing any rows from an intact log is accepted if and only if the remainder is a prefix of the chain |
| `Audit.EditUndetectedIff` | src/ai_ecosystem/security/audit.py:116-149 | replacing one row, even rehashed, is accepted if and only if every field but the storage stamp is kept or the last record is replaced by a well-hashed one with the same link |
| `Audit.EditInsideIff` | src/ai_ecosystem/security/audit.py:116-149 | inside the chain a replaced row is accepted if and only if it differs in nothing but the storage stamp |
| `Audit.EndIsOpen` | src/ai_ecosystem/security/audit.py:116-149 | a one-record log whose record may be replaced or removed unnoticed |
| `Audit.NextRecordShows` | src/ai_ecosystem/security/audit.py:70-114 | after the end of a chain is deleted, a record linked to the remembered tail is accepted if and only if nothing was deleted; one linked to the tail that is left always is |
| `Audit.AuditLog.Record` | src/ai_ecosystem/security/audit.py:70-114 | appends one record linked to the remembered or recovered tail, its hash over the link, the id and the content, and keeps an intact log intact |
| `Audit.AuditLog.Reopen` | src/ai_ecosystem/security/audit.py:60-68 | a new process over the same table may go on recording |
| `Audit.AuditLog.Rotate` | src/ai_ecosystem/security/audit.py:170-190 | exports exactly the rows, clears the table and leaves an intact chain of one checkpoint, whatever state the log was in |
| `Audit.AuditLog.CrashWhileRotating` | src/ai_ecosystem/security/audit.py:178-182 | a death after k of the row deletions leaves the rows after the first k, with the export done |
| `Audit.DeathInRotation` | src/ai_ecosystem/security/audit.py:178-182 | and these verify if and only if no row or every row was deleted |
| `Sync.RunAt` | src/ai_ecosystem/cloud/sync.py:356-365 | a run treats every id by itself: by the upload decision for a local object, by the download rule elsewhere |
| `Sync.UploadsIff` | src/ai_ecosystem/cloud/sync.py:142-152 | an object may be uploaded if and only if it holds no secret and its override, or lacking one the default of its kind, is allowed or restricted |
| `Sync.DownloadsIff` | src/ai_ecosystem/cloud/sync.py:142-158 | downloads are stricter: restricted only with consent |
| `Sync.RunTreats` | src/ai_ecosystem/cloud/sync.py:390-417 | what a run makes of an object: skipped exactly if it may not be uploaded, in conflict exactly if remote and local differ and the remote version is not acknowledged, pushed exactly if there is nothing on the remote or something else under the acknowledged version, in sync otherwise; a push that gets through leaves exactly the object there, acknowledged |
| `Sync.RunPulls` | src/ai_ecosystem/cloud/sync.py:419-452 | what it makes of other ids: they stay as they are and are acknowledged if and only if they may be downloaded |
| `Sync.CleanRunConverges` | src/ai_ecosystem/cloud/sync.py:356-417 | after a clean run every object that may be uploaded agrees with its remote entry and is acknowledged, if and only if it was not in conflict; in conflict nothing about it has changed |
| `Sync.CleanRunAbsorbs` | src/ai_ecosystem/cloud/sync.py:356-452 | a run with push failures followed by a clean one is the clean one |
| `Sync.CleanRunIdempotent` | src/ai_ecosystem/cloud/sync.py:356-452 | a second clean run changes neither the remote nor the acknowledgements |
| `Sync.SecondRunIsQuiet` | src/ai_ecosystem/cloud/sync.py:390-430 | and it pushes and downloads nothing |
| `Sync.Resumable` | src/ai_ecosystem/cloud/sync.py:265-285 | any number of interrupted runs followed by a clean one end where a single clean run ends |
| `Sync.OpKeepsInv` | src/ai_ecosystem/cloud/sync.py:287-417 | every run, resolution or foreign write keeps acknowledgements tied to what the last handshake saw |
| `Sync.WorldsAreSound` | src/ai_ecosystem/cloud/sync.py:287-417 | so it holds in every interleaving |
| `Sync.OverwritesOnlySeen` | src/ai_ecosystem/cloud/sync.py:396-408 | in any interleaving, a run that replaces a remote entry had acknowledged its version, and saw exactly that content at the last handshake |
| `Sync.OnlyPermittedLeaves` | src/ai_ecosystem/cloud/sync.py:5 | over any operations, what is on the remote was there before, was written by others, or holds no secret and may be uploaded |
| `Sync.UnacknowledgedSurvives` | src/ai_ecosystem/cloud/sync.py:390-417 | a foreign version that nobody has acknowledged survives every operation up to the first that acknowledges or overrules it |
| `Sync.ForeignSurvivesIff` | src/ai_ecosystem/cloud/sync.py:287-452 | over any operations, an unacknowledged foreign version stays throughout if and only if nobody replaces it on purpose and no run pushes a differing object over it after an earlier operation has acknowledged it; which operations do that can be read off them |
| `Sync.LostSilently` | src/ai_ecosystem/cloud/sync.py:390-444 | a foreign version that a run without the object acknowledges and the next run uploads over as local newer, with no conflict |
| `Sync.KeptRemoteSurvivesIff` | src/ai_ecosystem/cloud/sync.py:331-346 | after a resolution for the remote side, the next run leaves the remote entry alone if and only if the local object may not be uploaded, its push fails, or the two match |
| `Sync.KeptRemoteIsSafeIff` | src/ai_ecosystem/cloud/sync.py:331-408 | it survives whatever runs follow if and only if the local object may not be uploaded or matches |
| `Sync.KeptRemotePushedOver` | src/ai_ecosystem/cloud/sync.py:396-408 | a conflict resolved for the remote side that the next run pushes over |
| `Sync.Transport.Push` | src/ai_ecosystem/cloud/sync.py:199-206 | stores the object and returns its version, or changes nothing |
| `Sync.SyncManager.SyncObjectOnce` | src/ai_ecosystem/cloud/sync.py:390-417 | the decision for one object against the listing, and its effect on both sides |
| `Sync.SyncManager.PullNewObjects` | src/ai_ecosystem/cloud/sync.py:419-452 | acknowledges exactly the permitted unacknowledged entries without a local object, and reports exactly those as downloaded |
| `Sync.SyncManager.SyncNow` | src/ai_ecosystem/cloud/sync.py:356-388 | one run changes the system as the run operation says; each object is treated and reported as Sync.RunTreats says, each entry without an object once, as downloaded or skipped; the run fails exactly if the remote is down or a push failed and nothing got through |
| `Sync.SyncManager.RetrySync` | src/ai_ecosystem/cloud/sync.py:265-285 | goes on exactly as long as runs fail, for at most max_retries more attempts, and leaves the system as that many runs in a row |
| `Sync.SyncManager.ResolveConflict` | src/ai_ecosystem/cloud/sync.py:287-352 | pushes the local object or acknowledges the remote version if policy permits, with the exact contents of both sides, and changes nothing otherwise |
| `JsonScan.FoldConcat` | src/ai_ecosystem/intelligence/models/providers.py:120-139 | scanning a concatenation is scanning its parts one after the other |
| `JsonScan.StringBody` | src/ai_ecosystem/intelligence/models/providers.py:125-131 | no string content, escapes included, gets the scanner out of the string or moves the depth |
| `JsonScan.PrintNeutral` | src/ai_ecosystem/intelligence/models/providers.py:123-139 | any printed JSON value leaves the scanner's state as it was and does not close the object around it |
| `JsonScan.ClosesAtEnd` | src/ai_ecosystem/intelligence/models/providers.py:134-139 | from its opening brace the scan closes at the last brace of an object and nowhere before |
| `JsonScan.ScanFindsObject` | src/ai_ecosystem/intelligence/models/providers.py:118-140 | for any JSON object, any text before it without an opening brace and any text after it, exactly the printed object is cut out |
| `JsonScan.ScannedMeans` | src/ai_ecosystem/intelligence/models/providers.py:118-140 | for any text with a brace, the shortest piece from the first brace on that is balanced outside strings is cut out, and if there is none the text comes back as it is |
| `JsonScan.ScannedWithoutBrace` | src/ai_ecosystem/intelligence/models/providers.py:118-119 | a text without a brace comes back as it is |
| `JsonScan.TruncatedComesBack` | src/ai_ecosystem/intelligence/models/providers.py:120-140 | an object that breaks off before its last brace, wherever that is, is not cut |
| `JsonScan.ExtractFindsObject` | src/ai_ecosystem/intelligence/models/providers.py:109-140 | the same through the strip that comes first |
| `JsonScan.ExtractScan` | src/ai_ecosystem/intelligence/models/providers.py:118-140 | the index loop with its three variables computes the specified scan |
| `Recovery.PermissionRetriedIffOverridden` | src/ai_ecosystem/agent/recovery/policy.py:62-84 | a permission failure is retried if and only if an override says so |
| `Recovery.PermissionCanBeRetried` | src/ai_ecosystem/agent/recovery/policy.py:3-5 | a policy under which it always is, against the documentation |
| `Recovery.PermissionEntries` | src/ai_ecosystem/agent/recovery/engine.py:202-211 | in the audit of any outcome a permission failure was answered with a retry if and only if an override says so, and with an escalation if none speaks of it |
| `Recovery.DenialEscalates` | src/ai_ecosystem/agent/recovery/engine.py:316-339 | a run is classified as a permission failure if and only if some tool result says denied, and without an override it is escalated |
| `Recovery.ClassMeans` | src/ai_ecosystem/agent/recovery/engine.py:316-339 | each failure class if and only if the execution and the verdict say so: denial, lateness, the first failed tool result by its text, a failed run with or without skipped steps, a rejected verification |
| `Recovery.PolicyResponds` | src/ai_ecosystem/agent/recovery/policy.py:62-84 | the answer to each: without an override a denial is escalated, a late or failed tool retried exactly while retries are left and then escalated, a rejected verification of a clean run replanned exactly while replans are left and then escalated, and anything else fails |
| `Recovery.ActionWithinPolicy` | src/ai_ecosystem/agent/recovery/policy.py:40-84 | a decided retry stays within the retry limit unless an override asks for retries, and a decided replan within its limit unless one asks for replans |
| `Recovery.RetryKeeps` | src/ai_ecosystem/agent/recovery/engine.py:214-218 | a retry keeps the loop invariant: executions, retries and replans in balance, versions distinct, the audit following the policy |
| `Recovery.ReplanKeeps` | src/ai_ecosystem/agent/recovery/engine.py:257-263 | so does an accepted replan |
| `Recovery.StopsSound` | src/ai_ecosystem/agent/recovery/engine.py:264-303 | every other decision ends in a sound outcome |
| `Recovery.EndsSound` | src/ai_ecosystem/agent/recovery/engine.py:160-201 | so do the ends without a decision |
| `Recovery.Judge` | src/ai_ecosystem/agent/recovery/engine.py:172-201 | verifies an execution nobody verified; ends on a raising verifier and, exactly with a completed and passed execution, in recovery |
| `Recovery.Decide` | src/ai_ecosystem/agent/recovery/engine.py:202-303 | enters an answer to the execution as Recovery.PolicyResponds has it; goes on exactly after a retry or a replan with an accepted, unseen plan, and ends soundly otherwise |
| `Recovery.RunWithPrior` | src/ai_ecosystem/agent/recovery/engine.py:106-314 | for any behaviour of the callbacks it ends after at most max_attempts executions (a prior one counts), without an outcome only if a callback raises what the loop does not catch; the audit tells, round by round, what was really executed on which version, how it was judged and how that was answered by the policy; every decision led to the next round, a replan with its new plan, except a last one that ended the loop; recovered if and only if the last execution completed and its verification passed, on the newest plan; escalated and partial exactly after such a decision; giving up has a listed reason |
| `Gateway.PruneKeepsWindow` | src/ai_ecosystem/interface/gateway.py:168-169 | after pruning the deque is still the end of the accepted history, and everything left is inside the window |
| `Gateway.HoldsIffUsed` | src/ai_ecosystem/interface/gateway.py:170-171 | the pruned deque holds a nonce if and only if it was accepted within the window of the whole past |
| `Gateway.WindowDecides` | src/ai_ecosystem/interface/gateway.py:166-172 | so one request is decided as against the whole history, and the deque stays its window |
| `Gateway.WindowRefinesHistory` | src/ai_ecosystem/interface/gateway.py:166-172 | over any run with a clock that does not go back, the deque accepts exactly the requests full memory would |
| `Gateway.GcChangesNoLaterVerdict` | src/ai_ecosystem/interface/gateway.py:174-186 | collection changes the verdict on a code or token if and only if it is asked at the very instant of collection and expiry; no later verdict changes |
| `Gateway.GcDropsAtExpiry` | src/ai_ecosystem/interface/gateway.py:174-186 | a code and a session that are good at the instant of collection and dropped by it |
| `Gateway.ScopesMean` | src/ai_ecosystem/interface/gateway.py:23-28 | each scope of each role; hardware may do nothing that changes state, a phone everything that does |
| `Gateway.EcosystemGateway.IssuePairingCode` | src/ai_ecosystem/interface/gateway.py:72-84 | drops used and expired codes and dead sessions, then adds one unused code |
| `Gateway.EcosystemGateway.Pair` | src/ai_ecosystem/interface/gateway.py:86-101 | succeeds exactly for a known, unused, unexpired code and a secret of 16 characters, 8 of them different; the code is marked used and is redeemed at most once ever; opens one session and lifts a revocation; a refusal changes nothing but the clock |
| `Gateway.EcosystemGateway.LiveSession` | src/ai_ecosystem/interface/gateway.py:147-156 | finds exactly the live session of a token and drops an expired one |
| `Gateway.EcosystemGateway.Refresh` | src/ai_ecosystem/interface/gateway.py:105-109 | trades exactly a live token for a new one with the same rights; a refused token is gone |
| `Gateway.EcosystemGateway.RevokeToken` | src/ai_ecosystem/interface/gateway.py:111-113 | ends exactly that session |
| `Gateway.EcosystemGateway.RevokeDevice` | src/ai_ecosystem/interface/gateway.py:115-124 | ends exactly the sessions of the device and forgets its secret; no session ever belongs to a revoked device |
| `Gateway.EcosystemGateway.AcceptNonce` | src/ai_ecosystem/interface/gateway.py:166-172 | the pruning loop and scan accept exactly a nonce not accepted within the window of the whole past |
| `Gateway.EcosystemGateway.Check` | src/ai_ecosystem/interface/gateway.py:126-139 | passes exactly for a live session whose role grants the scope, with a nonce for writing scopes, and only with a nonce unused in the window; it drops an expired session and changes no other |
| `Proactive.RecentTwice` | src/ai_ecosystem/agent/proactive.py:124 | pruning now and again later is pruning later |
| `Proactive.RecentCounts` | src/ai_ecosystem/agent/proactive.py:124-125 | the pruned list is as long as the number of proposals in the last hour of the whole past |
| `Proactive.FreeIff` | src/ai_ecosystem/agent/proactive.py:119-126 | the rule spelled out: at least the cooldown after every earlier proposal of the key, or after time zero if there is none, and fewer than max_per_hour proposals in the 3600 seconds before |
| `Proactive.KindNames` | src/ai_ecosystem/agent/proactive.py:25-33 | the category names operators write down, one for each kind |
| `Proactive.RateLimit` | src/ai_ecosystem/agent/proactive.py:124-126 | in no hour, whenever it ends, are more than max_per_hour proposals made |
| `Proactive.CooldownKept` | src/ai_ecosystem/agent/proactive.py:121-123 | two proposals of the same trigger and subject are at least the trigger's cooldown apart |
| `Proactive.FiredMore` | src/ai_ecosystem/agent/proactive.py:130-132 | one more proposal that obeys the rule keeps order, pacing and the pruned list |
| `Proactive.ProactiveEngine.RemoveTrigger` | src/ai_ecosystem/agent/proactive.py:100-102 | forgets the trigger, says whether there was one, and leaves pacing and proposals as they are |
| `Proactive.ProactiveEngine.Prune` | src/ai_ecosystem/agent/proactive.py:124 | pruning keeps the engine's memory in line with the whole past |
| `Proactive.ProactiveEngine.GetsThrough` | src/ai_ecosystem/agent/proactive.py:112-126 | a firing gets through exactly if the switches, categories and quiet hours allow it and the rule over the whole past does |
| `Proactive.ProactiveEngine.Evaluate` | src/ai_ecosystem/agent/proactive.py:104-141 | a proposal is made exactly if trigger and engine are enabled, the category allowed, the hour not quiet and the rule of Proactive.FreeIff holds, with its contents, approved at once exactly for low risk without required approval; otherwise nothing is remembered |
| `Proactive.ProactiveEngine.Approve` | src/ai_ecosystem/agent/proactive.py:143-149 | approves exactly a known undecided proposal, and changes no other |
| `Proactive.ProactiveEngine.Reject` | src/ai_ecosystem/agent/proactive.py:151-157 | rejects exactly a known undecided proposal, and changes no other |
| `Proactive.ProactiveEngine.Execute` | src/ai_ecosystem/agent/proactive.py:159-184 | runs exactly an approved proposal and settles it, except that a raising verifier leaves it approved; runs are one per settled proposal plus one per such exception |
| `Proactive.ExecutedTwice` | src/ai_ecosystem/agent/proactive.py:159-184 | a proposal run twice because its verifier raised |
| `Messages.DeliverKeeps` | src/ai_ecosystem/agent/multi/messages.py:89-95 | a delivery keeps, for every recipient, accepted = taken out ++ inbox, and the inbox within its cap |
| `Messages.PopKeeps` | src/ai_ecosystem/agent/multi/messages.py:117 | so does taking one message out |
| `Messages.SeenMore` | src/ai_ecosystem/agent/multi/messages.py:85-94 | the seen pairs are exactly those of the accepted messages, each once |
| `Messages.CopiesBounded` | src/ai_ecosystem/agent/multi/messages.py:132-156 | however it is relayed, a message is enqueued at most once per registered agent |
| `Messages.ChainBound` | src/ai_ecosystem/agent/multi/messages.py:140-155 | along a relay chain hops and time to live add up to the same and everything else is passed on as it is; the two limits let a chain pass if and only if it is no longer than max_hops - hops and ttl - 1 |
| `Messages.SameRouteIff` | src/ai_ecosystem/agent/multi/messages.py:144 | relays are counted together if and only if they share sender, recipient and conversation, a message without a correlation id being its own |
| `Messages.AttemptsCount` | src/ai_ecosystem/agent/multi/messages.py:145-146 | the counter of a route is the number of earlier tries on it |
| `Messages.CountedDeliveriesIff` | src/ai_ecosystem/agent/multi/messages.py:145-148 | on a route tried max_hops times there are at most max_hops deliveries, of whatever messages, and exactly so many if and only if each try the counter let through was delivered |
| `Messages.MessageAlongOnce` | src/ai_ecosystem/agent/multi/messages.py:85-94 | no message is delivered along one route twice |
| `Messages.LoopIsRealIff` | src/ai_ecosystem/agent/multi/messages.py:145-148 | on a route tried max_hops times some message has gone along it max_hops times if and only if max_hops is one and the first try was delivered |
| `Messages.UncorrelatedOnce` | src/ai_ecosystem/agent/multi/messages.py:145-155 | without correlation ids a route is delivered at most once |
| `Messages.MessageBus.ObjectionMeans` | src/ai_ecosystem/agent/multi/messages.py:213-236 | each objection exactly if its reason holds and no earlier one does |
| `Messages.MessageBus.Send` | src/ai_ecosystem/agent/multi/messages.py:82-109 | accepts exactly a message without objection (the first of sender, recipient, task, size, time to live, expiry) whose id was never accepted for this recipient and whose inbox has room, at the end of that inbox; otherwise changes nothing |
| `Messages.ReceivedLater` | src/ai_ecosystem/agent/multi/messages.py:118-124 | dropping an expired message and receiving again is receiving |
| `Messages.MessageBus.Receive` | src/ai_ecosystem/agent/multi/messages.py:111-130 | drops expired messages from the head, each judged at its own reading, hands over the first that is not expired, and touches no other inbox |
| `Messages.MessageBus.Forward` | src/ai_ecosystem/agent/multi/messages.py:132-156 | refuses at the hop limit, at the end of the time to live, and as a loop exactly when the route was tried max_hops times before, delivered or not; otherwise sends the relayed message; each try is on record with its delivery |
| `Messages.RefusedWithoutDelivery` | src/ai_ecosystem/agent/multi/messages.py:145-148 | for any hop limit, a relay refused as a loop on a route along which nothing was delivered |
| `Circuit.TrailingCounts` | src/ai_ecosystem/core/circuit.py:92-104 | the failures in a row are those after which no call succeeded |
| `Circuit.LastFailureMeans` | src/ai_ecosystem/core/circuit.py:92-98 | and the time that counts is that of the latest failure |
| `Circuit.StepReflects` | src/ai_ecosystem/core/circuit.py:60-104 | one step of any caller keeps the four fields in line with the whole past |
| `Circuit.FieldsReflectPast` | src/ai_ecosystem/core/circuit.py:60-104 | at every point of every run the breaker lets in exactly whom the rule over the whole past lets in: everybody below the threshold of failures in a row, then one caller per timeout after the last failure |
| `Circuit.PositionsMean` | src/ai_ecosystem/core/circuit.py:22-27 | closed if and only if the failures are below the threshold; a probe in flight means half-open |
| `Circuit.OneTrialPerPeriod` | src/ai_ecosystem/core/circuit.py:74-81 | between two callers let in on trial some call recorded its end |
| `Circuit.NobodyBeforeReset` | src/ai_ecosystem/core/circuit.py:60-66 | a failure that leaves the circuit open keeps everybody out for the reset timeout unless a call succeeds |
| `Circuit.DoorOpensIff` | src/ai_ecosystem/core/circuit.py:68-104 | during a trial, while given callers record no end, somebody can get in if and only if another call is still running |
| `Circuit.TrialAloneIff` | src/ai_ecosystem/core/circuit.py:71-72 | the documented promise that everybody else fails fast until the probe is resolved holds if and only if no earlier call is still running |
| `Circuit.TrialLeavesShutIff` | src/ai_ecosystem/core/circuit.py:82-85 | a probe that leaves with a circuit-open error keeps everybody out for good if and only if no other call is running |
| `Circuit.ShutForGood` | src/ai_ecosystem/core/circuit.py:82-85 | a run after which nobody is let in again |
| `Circuit.TwoTrials` | src/ai_ecosystem/core/circuit.py:92-98 | a run with two probes in flight |
| `Circuit.CircuitBreaker.Create` | src/ai_ecosystem/core/circuit.py:33-52 | refuses exactly a threshold below one or a negative timeout |
| `Circuit.CircuitBreaker.State` | src/ai_ecosystem/core/circuit.py:54-66 | the position shown is the one failures in a row and the time since the last one call for |
| `Circuit.CircuitBreaker.Begin` | src/ai_ecosystem/core/circuit.py:74-81 | lets a caller in exactly by the rule over the whole past, and tells a timeout from a probe in flight |
| `Circuit.CircuitBreaker.RecordFailure` | src/ai_ecosystem/core/circuit.py:92-98 | the fields after a failure are those of the past with it |
| `Circuit.CircuitBreaker.RecordSuccess` | src/ai_ecosystem/core/circuit.py:100-104 | the same for a success |

## Left out

- The desktop shell, the HTTP server and client, process supervision, sandbox, terminal, git, web and other tools: input and output.
- Prompting, planning back ends, query formulation and the single-agent orchestrator: they depend on model output.
- Persistence: tables are maps and sequences, a stored write is an assignment, serialization is left out.
- Locks and threads: a locked block is one step. Sync's refusal of a second concurrent run is therefore not modelled.
- Events, logging and error texts; refusals are told apart only where the text above says so.
- Plan gate: goal, tools, arguments, schemas and wording checks; they read one step at a time.
- Executor: a step's tools, results, timestamps and error texts. Its outcome is success or not and whether its deadline
  was reached when it was collected. The token passed to a step, deadline enforcement and the pool are part of that.
  Futures are the ids of their steps. Workers are assumed to finish after finitely many idle polls.
- Executor: runs start from states without READY or RUNNING nodes (`AtRest`). Every state that a plan, or a restore
  of a snapshot taken at a persist point, produces is of that kind; a hand-made snapshot with READY nodes is not.
- `Executors.ParallelExecutor.ExecuteGraph`: settled states are claimed only for runs without cancellation and without a
  fail-fast halt; with one of them steps end CANCELLED, or SKIPPED by the drain, depending on when it comes.
- Scheduler: requirements, routing and dispatch are the outcome of an attempt; audit notes and result texts are left
  out. In the run lemmas a submitted job is new: queued and never attempted (`Legal`). Resubmitting a stored object is
  answered by the store's refusal of a taken id.
- `Scheduler.SettledForGood`: a tick is one operation in the runs it speaks of; what a cancellation between the listing
  and an attempt comes to is said by `Ticks.CancelHoldsIff`, with an attempt as one step.
- Scheduler: a router or store that raises something else than a routing error; it leaves the job running, as a crash
  at that point does.
- `Scheduler.GlobalScheduler.RunUntilIdle`: the source leaves repeated ticking to its caller; this is the driver such a caller would write, without quiet hours.
- Audit: export files, queries, retention by age. A reopened log finds its tail as the last row in append order; the
  source sorts rows by their storage stamp, which is the same as long as stamps increase.
- `Audit.AuditLog.CrashWhileRotating`: what is left is said for rows with distinct ids, which the source draws at random.
- `Audit.Verify`: the hash is an injective function that never yields the genesis marker, not SHA-256.
- Sync: exceptions from a pull inside a run, several objects of one id in one run (lemmas ask for distinct ids, the
  methods do not), and writers racing within a run. Which pushes fail is any function of the object id per run, instead
  of the mock's scripted counters. The download pass goes in any order; the source goes by id. Objects are values, so
  that the deep copies of the transport need no proof. Scanning payloads for secrets is a parameter.
- `Sync.OverwritesOnlySeen`: foreign writes are assumed to use a version never used for that id before.
- `JsonScan.ExtractFindsObject`: only the scanner stage and the strip; whole-text JSON and code fences are tried first by the source. Which characters the strip removes is a parameter that spares the two braces.
- Recovery: the detail and reason texts, escalation records and backoff times. Execution, verification and replanning
  are functions of the round, the plan version and, for the verifier, the result; identical arguments in one round
  would give identical answers, which no round asks for twice. A replacement plan is its version string and whether the
  gates accept it.
- Gateway: codes and tokens are parameters, fresh where the source draws them at random; request signatures and events
  are left out. An unknown role cannot be expressed.
- Proactive: proposals cannot be removed and the callables do not call back into the engine. The clock is assumed not
  to go back, though the source reads wall-clock time.
- Messages: message type and priority, which the bus does not read, the stored history, and the hand-off helper, which
  is one send. The size in bytes is a function of the message.
- Circuit: the result of the wrapped function. A call is its two locked blocks with anything in between.
