# go-ai-scheduler: a verified model

Dafny models of the hard parts of the go-ai-scheduler repository, with proofs about every input, every run or every
reachable state. `dafny verify dfyconfig.toml` checks the whole project.

## What is modelled

- **Instance runtime.** `RuntimeModel` gives the scheduler's state (tasks, dependency edges, instances with their
  schedule-ID index, workers, round-robin counter) and its handlers as functions: trigger scan, retry scan, status
  report, cancellation. `Scheduler` is the same as an object whose fields the methods update step by step; its invariant
  is that a run has reached its state, and each of its four entry points extends that run by one event, so that every
  theorem about runs holds of the object. `Listings` says what is listed and which worker is chosen; `Dispatching`,
  `TriggerEffects`, `ScanEffects`, `RetryEffects` and `ReportEffects` say, in terms of fields and edges, everything a
  handler changes. `Moves` names nine guarded elementary changes; `Handlers` proves that every handler is a sequence of
  them. The theorems over whole runs (`Runs`, `LoadConservation`, `HarmlessReports`, `DependencyGate`,
  `DuplicateReports`, `PendingBound`) are proved move by move. `Delivery` adds the workers, a network that loses,
  delays, duplicates and reorders, the worker's report buffer and its flushing; `SystemLoad` says exactly when loads are
  conserved there, and `ReportStore` is the buffer as an object that carries out the system's store steps. `WorkerSide`
  has the duplicate check, `RetryDelays` the backoff arithmetic, `RetryWindow` the span of a retry chain, and
  `Witnesses` and `GateWitnesses` concrete runs.
- **Dependency graph.** `DependencyGraph` (three-colour search), `Layers` (the console's memoised levels and lanes),
  `TaskDependencies` (building the graph, reconciling edges).
- **Cron.** `Text` (the Go string functions used), `CronParser`, `CronGrammar` (syntax trees, printing, round trip),
  `Calendar` (proleptic Gregorian, UTC), `CronSchedule` (matching and the bounded search), `Cron` (next run), `CronLaws`
  (what a schedule means, as laws between schedules).
- **Timing and rate control.** `Backpressure`, `TokenBucket`, `ConcurrencyLimiter`, `TimingWheel`, `TaskHeap`.
- **Wire and stream.** `WebSocket` (sections 5.2 and 5.3 of RFC 6455), `ToolCalls`, `AgentLoop`.

Each handler body is one atomic step and repository calls succeed, with the in-memory `teststore` as the repository's
semantics. The clock, the answers of workers, models and tools, and the network's behaviour are inputs. Instants are
nanoseconds since the zero time; 64-bit wrap-around is written out where it can be reached. `float64` is `real`.

## Where the code does not do what its comments or documentation say

The model follows the code; each point is a theorem.

- The dependency gate lists one successful instance, the oldest, and accepts it only for the task it belongs to. A task
  with two different upstream tasks is never triggered (`MixedNeverTriggers`, `TwoUpstreamsShut`), and another task's
  older success keeps the gate shut (`GateOpensIff`, `OlderSuccessShuts`).
- Cancelling an instance in flight does not release its worker's load (`LoadIsExactUnlessCancelled`, `CancellingLeaks`).
- Loads are off as soon as a report arrives that is not harmless (`SystemLoadIsConservedIff`). That takes a lost answer to
  a retry's dispatch, which puts the retry back to waiting while its worker executes it (`LossesOfTriggersAreHarmless`,
  `LostAnswerUnbalances`).
- The retry window is documented as the span of all retries; it bounds the chain only if there is at most one retry
  (`WindowIsTotalIff`).
- The exponential backoff is 2^n seconds capped at ten minutes only up to n = 33 and for eight larger counts
  (`BackoffIsExact`).
- A cron expression for 29 February has no next run for years before a century that is no leap year (`CenturyGap`,
  `NoLeapNightAfter2096`).
- The announced waiting time of the token bucket can be a nanosecond short (`WaitIsExact`, `WaitCanFallShort`).
- The LLM limit in requests a minute holds over no minute, whatever its value: a burst of the whole limit is followed by
  what accrues meanwhile (`LimitHoldsIff`, `MostGranted`). The refill rate alone keeps it from 60 on and is 60000 a minute
  below (`SustainedRate`).
- A release by a caller without a slot makes the concurrency limiter overbook (`ExactIff`, `HoldersAre`).
- `Peek` of the task heap need not be the earliest entry after a drain (`FrontFirstIff`, `DrainLosesShape`).
- Of n tool calls those with a negative index or an index from n on are dropped from the final event (`AllCallsIff`,
  `EmittedAre`, `LoneSecondIsDropped`).

## Model

| member | source | states |
|---|---|---|
| `Scheduler.Scheduler.constructor` | internal/repo/teststore/task_instance_repository.go:24-30 | the object starts valid, with empty instance tables; without load it is fresh and balanced |
| `Scheduler.Scheduler.ChainsAreProper` | internal/api/service/task_runtime_service.go:152-249 | at any time every retry chain the object holds is proper |
| `Scheduler.Scheduler.TriggeredAreGated` | internal/scheduler/trigger/loop.go:144-190 | at any time what an object that started empty has triggered has a success for every upstream task |
| `Scheduler.Scheduler.LoadsAreAccounted` | internal/scheduler/route/router.go:37-69 | at any time, after proper events, every load is work in flight plus cancelled in flight, within the maximum |
| `Scheduler.Scheduler.ListAvailableWorkers` | internal/repo/teststore/worker_repository.go:92-109 | lists exactly the online workers with spare capacity, in ID order |
| `Scheduler.FilterByLabels` | internal/scheduler/route/router.go:71-82 | keeps exactly the workers whose labels match, in order |
| `Scheduler.PickLeastLoaded` | internal/scheduler/route/router.go:84-92 | answers the first worker whose load is least |
| `Scheduler.Scheduler.Choose` | internal/scheduler/route/router.go:37-61 | the chosen worker is the one the policy names among the candidates |
| `Scheduler.Scheduler.PickWorker` | internal/scheduler/route/router.go:37-61 | picks and reserves one slot, or leaves the state alone |
| `Scheduler.Scheduler.ListUpstreamDeps` | internal/repo/teststore/task_repository.go:206-216 | the upstream tasks in edge order |
| `Scheduler.Scheduler.ListDownstreamTasks` | internal/repo/teststore/task_repository.go:193-203 | the downstream tasks in edge order |
| `Scheduler.Scheduler.FirstSuccess` | internal/repo/teststore/task_instance_repository.go:143-162 | the oldest successful instance, if any |
| `Scheduler.Scheduler.DependenciesSatisfied` | internal/scheduler/trigger/loop.go:144-174 | true exactly when the gate of the task is open |
| `Scheduler.Scheduler.TriggerAllShards` | internal/scheduler/trigger/loop.go:181-231 | the shard loop carries out the turns that ShardsAre describes |
| `Scheduler.Scheduler.HandleDueTask` | internal/scheduler/trigger/loop.go:143-242 | gate, shards and next trigger time of one task |
| `Scheduler.Scheduler.HandleDueTasks` | internal/scheduler/trigger/loop.go:132-140 | the loop over the listed tasks |
| `Scheduler.Scheduler.ListDueTasks` | internal/repo/teststore/task_repository.go:135-158 | exactly the enabled due tasks, earliest first, up to the limit |
| `Scheduler.Scheduler.CachedDueTasks` | internal/scheduler/trigger/loop.go:104-121 | the due tasks among the cached IDs |
| `Scheduler.Scheduler.ScanTasks` | internal/scheduler/trigger/loop.go:84-141 | extends the object's run by one trigger event with the whole effect of a scan: finished instances unchanged, accounts kept, and behind a controller the backlog stays below its bound |
| `Scheduler.Scheduler.RetryInstances` | internal/scheduler/retry/loop.go:72-119 | the loop over the due instances |
| `Scheduler.Scheduler.ScanRetries` | internal/scheduler/retry/loop.go:66-120 | extends the run by one retry event with the whole effect of a retry scan: finished instances unchanged, accounts kept, backlog not increased |
| `Scheduler.Scheduler.FireDownstreamTasks` | internal/api/service/task_runtime_service.go:130-150 | exactly the enabled tasks with an edge to the finished one become due now |
| `Scheduler.Scheduler.RetriesErrorCode` | internal/api/service/task_runtime_service.go:295-305 | true exactly when the policy does not filter by code or lists it |
| `Scheduler.Scheduler.HandleReport` | internal/api/service/task_runtime_service.go:72-128 | extends the run by one report with its result and whole effect: a success makes exactly the enabled dependents due; finished instances unchanged, proper reports keep the accounts, worker reports never increase the backlog |
| `Scheduler.Scheduler.Cancel` | internal/api/service/task_runtime_service.go:252-267 | extends the run by one cancellation: succeeds exactly on an unfinished instance, marks that one cancelled and changes nothing else, keeps accounts |
| `Dispatching.PickedFits` | internal/scheduler/route/router.go:37-82 | a worker is found exactly if one is online with room and every label of the task with its value; the one found is such a worker and alone gets one more unit |
| `Dispatching.RedispatchIs` | internal/scheduler/retry/loop.go:80-116 | a redispatched instance records such a worker and the time; the worker keeps the unit exactly if it accepts, and a refused instance goes back to waiting |
| `ReportEffects.ReportIs` | internal/api/service/task_runtime_service.go:72-128 | the whole effect of a report and its answer: instance, dependents, the reporter's load, and the retry |
| `ReportEffects.ReportFires` | internal/api/service/task_runtime_service.go:130-150 | after an effective success exactly the enabled tasks with an edge to its task are due now; no other report changes a task |
| `ReportEffects.RetryIs` | internal/api/service/task_runtime_service.go:152-249 | a retry appears exactly if the attempt failed or timed out with retries left, a code to retry on and an open window; it keeps task and shard, has the next count and its due time, or is dispatched at once |
| `TriggerEffects.ShardsAre` | internal/scheduler/trigger/loop.go:176-231 | the shards from a number on get one instance each, in order, until one finds no worker; all of them exactly if the free capacity exceeds what the ones before the last take |
| `TriggerEffects.TaskIs` | internal/scheduler/trigger/loop.go:143-242 | handling a task: behind an open gate max(1, totalShards) instances, shard numbers 0, 1, ... once each, or up to and including the first without a worker, which alone stays pending; behind a shut gate none; loads and the next trigger time |
| `ScanEffects.ScanIs` | internal/scheduler/trigger/loop.go:84-141 | a scan does that for every listed task in turn and nothing else; gates neither open nor shut during it |
| `RetryEffects.RetryScanIs` | internal/scheduler/retry/loop.go:66-120 | a retry scan gives the due instances their turn by age, passes over those whose task is gone, and ends where no worker has room; nothing else changes |
| `RuntimeModel.NextTriggerIsFirst` | internal/scheduler/trigger/loop.go:248-253 | the next trigger time lies after now and, for a cron task, is the first run its schedule admits |
| `Listings.DueRetriesAre` | internal/repo/teststore/task_instance_repository.go:213-235 | waiting instances whose time has come, oldest first, at most a hundred; one left out is younger than all listed |
| `Listings.CachedDueAre` | internal/scheduler/trigger/loop.go:106-117 | exactly the cached IDs of enabled tasks whose time has come |
| `Listings.CachedDueKeepsOrder` | internal/scheduler/trigger/loop.go:106-117 | the cached IDs keep their order |
| `Listings.ScanIdsAre` | internal/scheduler/trigger/loop.go:102-130 | a scan handles a prefix of the cached due tasks if there are any, else of the listed ones, at most a hundred, all enabled and due |
| `Listings.LeastLoadedIsChosen` | internal/scheduler/route/router.go:84-92 | no candidate has less load than the chosen one, and none with the same load a lower ID |
| `Listings.EveryoneGetsATurn` | internal/scheduler/route/router.go:94-97 | going round, every candidate gets a turn among as many as there are candidates |
| `Listings.NobodyGetsTwoTurns` | internal/scheduler/route/router.go:94-97 | and no candidate gets two of them |
| `Listings.TurnsRise` | internal/scheduler/route/router.go:94-97 | turns go through the candidates in ID order, beginning with the lowest |
| `Listings.EdgesAdd` | internal/repo/teststore/task_repository.go:193-216 | upstream and downstream listings follow the edges in order |
| `Listings.OneEdge` | internal/repo/teststore/task_repository.go:193-216 | and an edge is listed at its two ends |
| `Moves.MoveKeepsWellFormed` | internal/repo/teststore/task_instance_repository.go:33-255 | every elementary change keeps the ID and schedule-ID indexes consistent |
| `Moves.MoveEvolves` | internal/api/service/task_runtime_service.go:80-86 | no elementary change touches a terminal instance, a task's settings or the edges |
| `Moves.MoveKeepsLinks` | internal/api/service/task_runtime_service.go:190-249 | every retry continues a failed or timed-out instance, once, with the next count |
| `Handlers.PickReserves` | internal/scheduler/route/router.go:37-61 | a picked worker had a free slot and gets exactly one more in use |
| `Handlers.ReleaseUndoesPick` | internal/scheduler/route/router.go:37-69 | releasing the worker that was just picked restores every worker |
| `Handlers.TriggerShardMoves` | internal/scheduler/trigger/loop.go:181-231 | a shard's turn is a sequence of guarded changes, created only behind an open gate |
| `Handlers.HandleTaskMoves` | internal/scheduler/trigger/loop.go:143-242 | so is the handling of a task |
| `Handlers.TriggerScanMoves` | internal/scheduler/trigger/loop.go:84-141 | so is a trigger scan |
| `Handlers.RedispatchMoves` | internal/scheduler/retry/loop.go:80-116 | so is a redispatch |
| `Handlers.RetryScanMoves` | internal/scheduler/retry/loop.go:66-120 | so is a retry scan, although it works on copies taken at its start |
| `Handlers.RetryIfNeededMoves` | internal/api/service/task_runtime_service.go:152-249 | so is the retry decision |
| `Handlers.ReportMoves` | internal/api/service/task_runtime_service.go:72-128 | so is a report, settling its instance first |
| `Handlers.CancelMoves` | internal/api/service/task_runtime_service.go:252-267 | so is a cancellation, which drops one unfinished instance |
| `Handlers.ReportOrder` | internal/api/service/task_runtime_service.go:84-127 | firing downstream before or after releasing the worker makes no difference |
| `Handlers.GateIsSound` | internal/scheduler/trigger/loop.go:144-174 | an open gate means every upstream task has a success |
| `Runs.RunKeeps` | internal/api/service/task_runtime_service.go:72-267 | on every run the indexes and retry links stay sound and terminal instances never change |
| `Runs.FreshIsSound` | internal/repo/teststore/task_instance_repository.go:24-30 | a scheduler without instances satisfies what runs keep |
| `Runs.RetryChain` | internal/api/service/task_runtime_service.go:152-249 | in every reachable state a chain counts 0,1,2,..., has at most MaxRetry+1 members, and all but the last failed or timed out |
| `Runs.ChainsDoNotBranch` | internal/api/service/task_runtime_service.go:190-249 | two chains with a common root or end are prefixes of each other |
| `LoadConservation.RunKeepsAccounted` | internal/scheduler/route/router.go:37-69 | every run of proper reports, those of workers that are harmless when they arrive, keeps the load accounts balanced |
| `LoadConservation.LoadIsConserved` | internal/scheduler/route/router.go:37-69 | a worker's load is its instances in flight plus those cancelled in flight, and never above its maximum |
| `LoadConservation.LoadIsExactUnlessCancelled` | internal/api/service/task_runtime_service.go:252-267 | load equals work in flight if and only if none of the worker's instances was cancelled in flight |
| `Witnesses.CancellingLeaks` | internal/api/service/task_runtime_service.go:252-267 | a run from a fresh scheduler that ends with a load of 1 and no work in flight |
| `HarmlessReports.ReportBalancesIff` | internal/api/service/task_runtime_service.go:72-128 | from balanced accounts a worker's report leaves them balanced if and only if it is ignored, is on an instance in flight and, if it ends it, from that instance's worker, or takes no load away |
| `HarmlessReports.AccountedIff` | internal/api/service/task_runtime_service.go:72-128 | on any run with worker statuses the accounts are balanced in every state if and only if every report is harmless when it arrives |
| `DependencyGate.RunKeepsGated` | internal/scheduler/trigger/loop.go:144-190 | in every reachable state each triggered instance has a success for every upstream task |
| `DependencyGate.SuccessIsForever` | internal/api/service/task_runtime_service.go:80-86 | a recorded success is unchanged in every later state |
| `DependencyGate.TriggeredWhenDone` | internal/scheduler/trigger/loop.go:144-190 | an instance a scan creates was created with every upstream task done |
| `DependencyGate.GateOpensIff` | internal/scheduler/trigger/loop.go:144-174 | with all upstream tasks done the gate opens if and only if they are one task and no other task's success is older |
| `DependencyGate.MixedNeverTriggers` | internal/scheduler/trigger/loop.go:144-174 | no run triggers a task that depends on two different tasks |
| `GateWitnesses.TwoUpstreamsShut` | internal/scheduler/trigger/loop.go:144-174 | a run from a fresh scheduler after which both upstream tasks have succeeded, the task is due, its gate is shut and a scan creates nothing |
| `GateWitnesses.OlderSuccessShuts` | internal/scheduler/trigger/loop.go:144-174 | the same for a task with a single upstream task, whose success came second |
| `DuplicateReports.TerminalReportCloses` | internal/api/service/task_runtime_service.go:76-86 | after a terminal report no report on that instance has an effect |
| `DuplicateReports.OnlyFirstTerminalCounts` | internal/api/service/task_runtime_service.go:72-128 | any duplicated or reordered list of reports ends as its prefix through the first terminal one |
| `DuplicateReports.OnlyCompletionActs` | internal/api/service/task_runtime_service.go:88-127 | only a completing report changes tasks, loads or creates a retry |
| `DuplicateReports.AtMostOneCompletion` | internal/api/service/task_runtime_service.go:72-128 | of any reports on one instance at most one completes it |
| `DuplicateReports.LaterReportsDoNothing` | internal/api/service/task_runtime_service.go:72-128 | on any run with distinct schedule IDs, among all other events, leaving out every report on an instance after its first terminal one changes nothing |
| `PendingBound.ScanBacklog` | internal/scheduler/trigger/loop.go:84-141 | a scan adds at most a hundred pending instances, and none when refused |
| `PendingBound.ReportBacklog` | internal/api/service/task_runtime_service.go:72-128 | no report of a worker adds a pending instance |
| `PendingBound.BacklogIsBounded` | internal/scheduler/trigger/loop.go:84-141 | on every throttled run the pending count stays below the red threshold plus a hundred |
| `Delivery.NextKeeps` | internal/worker/handler.go:160-238 | every step of scheduler, worker and network, lost dispatch answers included, keeps the system invariant |
| `Delivery.NoOutcomeIsLost` | internal/worker/handler.go:230-237 | an ended execution's report is in hand, in the buffer, or its instance is terminal, whatever requests and answers are lost or repeated, dispatches included |
| `SystemLoad.SystemLoadIsConservedIff` | internal/worker/handler.go:160-238 | in the whole system, whatever is lost, every worker's load is its work in flight plus what was cancelled in flight in every state if and only if every report is harmless when it arrives |
| `SystemLoad.SystemLoadIsConserved` | internal/worker/handler.go:160-238 | as long as that holds a worker's load is that number and within its maximum |
| `SystemLoad.LossesOfTriggersAreHarmless` | internal/scheduler/trigger/loop.go:209-226 | that is so unless an answer is lost to a dispatch whose instance is put back to waiting; lost answers to trigger dispatches do no harm |
| `SystemLoad.AnsweredLoadIsConserved` | internal/worker/handler.go:160-238 | in particular without any assumption about reports while dispatches are answered |
| `Delivery.DrainedMeansDelivered` | internal/worker/local_store.go:81-122 | with nothing in hand and an empty buffer every ended execution has a terminal instance |
| `Witnesses.LostReportArrives` | internal/worker/local_store.go:47-122 | a run in which a report is lost, buffered, flushed, delivered and answered |
| `Witnesses.LostAnswerUnbalances` | internal/scheduler/retry/loop.go:99-116 | a run in which a lost dispatch answer ends with work in flight on a worker without load |
| `ReportStore.FilesOfRun` | internal/worker/local_store.go:47-122 | however a worker's store steps are interleaved with all others, its part of the system's store is what these steps make of it |
| `ReportStore.EndedIsOnFile` | internal/worker/local_store.go:47-122 | files that went through the store steps of a run hold every outcome that is neither in hand nor at the scheduler |
| `ReportStore.Store.Buffer` | internal/worker/local_store.go:47-68 | carries out the system's step after a failed delivery; the files stay what the steps make of an empty directory |
| `ReportStore.Store.Remove` | internal/worker/local_store.go:71-78 | carries out the system's step after an answered delivery |
| `ReportStore.Store.FlushOne` | internal/worker/local_store.go:95-119 | carries out the system's steps of one delivery attempt, answered or not |
| `ReportStore.Store.Flush` | internal/worker/local_store.go:81-122 | carries out these steps for every file, keeps exactly the reports that were not answered and returns their number |
| `ReportStore.Store.PendingCount` | internal/worker/local_store.go:125-137 | counting the listing gives the number of files, 0 exactly if there is none |
| `WorkerSide.ExecutionsAreApart` | internal/worker/handler.go:67-99 | two executions of one schedule ID on a worker are more than the time to live apart |
| `WorkerSide.NoEvictionNoRepeat` | internal/worker/handler.go:94-99 | without an eviction pass a repeated request never executes again |
| `WorkerSide.Handler.IsDuplicate` | internal/worker/handler.go:94-99 | answers whether the ID is recorded and records it otherwise |
| `WorkerSide.Handler.EvictExpired` | internal/worker/handler.go:67-92 | removes exactly the entries older than the time to live |
| `RetryDelays.BackoffIsExact` | internal/api/service/task_runtime_service.go:269-285 | the delay is min(2^n, 600) seconds if and only if n <= 33 or n is one of eight counts; otherwise there is none |
| `RetryDelays.FixedIsExactIff` | internal/api/service/task_runtime_service.go:277-281 | a fixed interval is kept if and only if it fits into a duration |
| `RetryWindow.ChainSpan` | internal/api/service/task_runtime_service.go:287-293 | on every run the k-th retry is created at most k windows after the first attempt, with k at most MaxRetry |
| `RetryWindow.OneRetryIsWithin` | internal/api/service/task_runtime_service.go:287-293 | with at most one retry the window bounds the whole chain, as documented |
| `Witnesses.ChainOutlasts` | internal/api/service/task_runtime_service.go:287-293 | for every positive window that fits a duration and every MaxRetry of at least 2 there is a run whose chain outlasts the window |
| `Witnesses.WindowIsTotalIff` | internal/model/task.go:19-19 | a positive window that fits a duration bounds every chain as a whole if and only if MaxRetry is at most 1 |
| `DependencyGraph.CycleDetector.DetectCycle` | internal/model/dependency.go:21-47 | terminates on every graph and answers true if and only if some node reaches itself |
| `DependencyGraph.CycleDetector.Dfs` | internal/model/dependency.go:24-38 | finds a cycle, or finishes the node with everything it reaches on no cycle |
| `Layers.LevelResolver.Resolve` | web/app.js:304-313 | terminates on every graph; on an acyclic one the level is the longest dependency path |
| `Layers.LevelResolver.ResolveAll` | web/app.js:314-314 | every listed task has a level, the longest path if the graph is acyclic |
| `Layers.LevelResolver.Group` | web/app.js:315-321 | one lane for each level that occurs, lowest first, holding its tasks in order |
| `Layers.LongestIsUnique` | web/app.js:304-313 | a node has at most one longest-path length |
| `Layers.StrictlyAbove` | web/app.js:304-313 | a dependency's longest path is strictly shorter |
| `Layers.OneLaneEach` | web/app.js:315-321 | every task is in exactly one lane, as often as it was listed |
| `Layers.DependenciesLieBelow` | web/app.js:302-321 | every dependency lies in a strictly lower lane |
| `TaskDependencies.BuildGraph` | internal/model/dependency.go:12-18 | the adjacency lists are the upstream lists in edge order |
| `TaskDependencies.TaskStore.AddDependency` | internal/repo/teststore/task_repository.go:161-175 | appends the edge exactly when both tasks exist |
| `TaskDependencies.TaskStore.RemoveDependency` | internal/repo/teststore/task_repository.go:178-190 | removes that edge and keeps the order of the others |
| `TaskDependencies.TaskStore.SyncDependencies` | internal/api/service/task_service.go:259-289 | afterwards the upstream set is the wanted set and other tasks' edges are unchanged; with the exact failure condition |
| `Text.SplitJoin` | internal/pkg/cronexpr/cronexpr.go:123-123 | splitting undoes joining |
| `Text.JoinSplit` | internal/pkg/cronexpr/cronexpr.go:123-123 | and joining undoes splitting |
| `Text.FieldsStep` | internal/pkg/cronexpr/cronexpr.go:78-78 | a word up to a space or the end is the first field |
| `Text.SkipSpace` | internal/pkg/cronexpr/cronexpr.go:78-78 | leading space makes no field |
| `Text.TrimIs` | internal/pkg/cronexpr/cronexpr.go:114-114 | trimming takes away space at both ends and nothing else |
| `Text.AtoiNeedsDigits` | internal/pkg/cronexpr/cronexpr.go:197-197 | only digits after at most one sign are a number, with that value |
| `Text.DecimalAdds` | internal/pkg/cronexpr/cronexpr.go:197-197 | digits count in tens from the left |
| `Text.AtoiOfItoa` | internal/pkg/cronexpr/cronexpr.go:197-197 | decimal notation is read back with either sign, exactly if it fits 64 bits |
| `CronParser.AddValues` | internal/pkg/cronexpr/cronexpr.go:155-161 | the 64-bit loop adds every step-th value of the range, or fails exactly when the first step overflows |
| `CronParser.AddSegment` | internal/pkg/cronexpr/cronexpr.go:135-163 | adds exactly the values the segment stands for, or fails |
| `CronParser.ParseList` | internal/pkg/cronexpr/cronexpr.go:122-131 | the union of the segments, or failure if one fails |
| `CronParser.ParseField` | internal/pkg/cronexpr/cronexpr.go:113-133 | the field the token stands for |
| `CronParser.Parse` | internal/pkg/cronexpr/cronexpr.go:77-111 | the schedule the expression stands for |
| `CronParser.AcceptedIsOk` | internal/pkg/cronexpr/cronexpr.go:77-163 | every field of an accepted expression admits some value, and only values of its range |
| `CronGrammar.ReadRange` | internal/pkg/cronexpr/cronexpr.go:165-194 | a written range is read as its span |
| `CronGrammar.ReadSegment` | internal/pkg/cronexpr/cronexpr.go:135-163 | a written segment is read as every step-th value of its span |
| `CronGrammar.ReadItems` | internal/pkg/cronexpr/cronexpr.go:122-132 | a written list is read as the union of its segments |
| `CronGrammar.ReadField` | internal/pkg/cronexpr/cronexpr.go:113-133 | a written field is read as what it means; only a lone star is unrestricted |
| `CronGrammar.ReadTree` | internal/pkg/cronexpr/cronexpr.go:77-111 | parsing undoes writing, for every expression of the notation |
| `CronGrammar.AcceptedIff` | internal/pkg/cronexpr/cronexpr.go:77-194 | an expression is accepted if and only if it spells a tree of the notation, up to space, plus signs and leading zeros, and then it has that tree's meaning |
| `Calendar.DateOf` | internal/pkg/cronexpr/cronexpr.go:49-54 | every day number has a valid date whose day number it is |
| `Calendar.DateIsUnique` | internal/pkg/cronexpr/cronexpr.go:49-54 | a valid date is the date of its day number |
| `Calendar.UnixEpoch` | internal/pkg/cronexpr/cronexpr.go:54-55 | 1 January 1970 is day 719162 and a Thursday |
| `Calendar.WeekdayOccurs` | internal/pkg/cronexpr/cronexpr.go:55-55 | every weekday occurs in any seven days |
| `CronLaws.NextWeekday` | internal/pkg/cronexpr/cronexpr.go:55-55 | weekdays follow each other, Sunday after Saturday |
| `CronLaws.MonthStarts` | internal/pkg/cronexpr/cronexpr.go:49-54 | the first days of the months of 1970 |
| `CronSchedule.FirstMatchIsLeast` | internal/pkg/cronexpr/cronexpr.go:30-38 | the search finds the least match of its window, or there is none |
| `CronSchedule.FirstMatchStable` | internal/pkg/cronexpr/cronexpr.go:30-38 | starting later, up to the match, finds the same match |
| `CronSchedule.Search` | internal/pkg/cronexpr/cronexpr.go:30-38 | the loop computes the first match of the window |
| `CronSchedule.DependableRuns` | internal/pkg/cronexpr/cronexpr.go:10-38 | a schedule that is not restricted to rare dates has a run in the window from every start |
| `CronSchedule.OnlyLeapDays` | internal/pkg/cronexpr/cronexpr.go:49-67 | any other schedule matches on 29 February only |
| `CronSchedule.NextLeapDayIsNext` | internal/pkg/cronexpr/cronexpr.go:30-38 | no 29 February lies before the next one |
| `CronSchedule.RunExistsIff` | internal/pkg/cronexpr/cronexpr.go:10-67 | exactly when the search finds a run, for every accepted schedule and start |
| `CronSchedule.LeapDayNearby` | internal/pkg/cronexpr/cronexpr.go:10-38 | a 29-February schedule has a run if one of the next four years is a leap year |
| `CronSchedule.CenturyGap` | internal/pkg/cronexpr/cronexpr.go:10-38 | after the last leap day before a century that is no leap year the search finds nothing |
| `CronLaws.FieldsAgree` | internal/pkg/cronexpr/cronexpr.go:41-67 | minute, hour, month and the day fields each have to agree |
| `CronLaws.EitherDay` | internal/pkg/cronexpr/cronexpr.go:57-66 | with both day fields restricted either suffices |
| `CronLaws.ValuesAdd` | internal/pkg/cronexpr/cronexpr.go:69-75 | a field admits what its values admit one by one |
| `CronLaws.OneValueMatches` | internal/pkg/cronexpr/cronexpr.go:41-75 | a single value admits exactly the minutes whose part of clock or date it is |
| `CronLaws.AcceptedValues` | internal/pkg/cronexpr/cronexpr.go:77-111 | exactly the values of each field's range are accepted, and 7 is Sunday as 0 is |
| `CronLaws.RangeValues` | internal/pkg/cronexpr/cronexpr.go:165-194 | a range admits every value from its first to its last |
| `Cron.NextAfter` | internal/pkg/cronexpr/cronexpr.go:24-39 | the imperative search computes the next run |
| `Cron.NextRunIsFirst` | internal/pkg/cronexpr/cronexpr.go:24-39 | the least minute-aligned instant strictly after now that matches, inside the window; an error exactly if the window has none |
| `Cron.NextRunExistsIff` | internal/pkg/cronexpr/cronexpr.go:24-39 | an accepted expression has a next run if and only if it is dependable or a 29 February is near |
| `Cron.NextRunIsStable` | internal/pkg/cronexpr/cronexpr.go:24-39 | asking again before the run is due gives the same run |
| `CronLaws.EarlierDayRuns` | internal/pkg/cronexpr/cronexpr.go:24-67 | with both day fields restricted the next run is the earlier of the next run on a day of the month and on a weekday |
| `CronLaws.FifteenthBeforeMonday` | internal/pkg/cronexpr/cronexpr.go:24-67 | "0 0 15 * 1" asked on Tuesday, 13 January 1970, gives the 15th |
| `Cron.NothingAfterGap` | internal/pkg/cronexpr/cronexpr.go:10-38 | from the day after the last 29 February before such a century an expression for that date has no next run |
| `Cron.NoLeapNightAfter2096` | internal/pkg/cronexpr/cronexpr.go:10-38 | "0 0 29 2 *" is accepted and has no next run on 1 March 2096 |
| `Cron.WrittenRuns` | internal/pkg/cronexpr/cronexpr.go:24-39 | a written dependable expression always has a next run, by its meaning |
| `Backpressure.Normalized` | internal/scheduler/ratelimit/backpressure.go:67-88 | the thresholds are usable and usable ones are kept |
| `Backpressure.RedThreshold` | internal/scheduler/ratelimit/backpressure.go:91-108 | red exactly when the count reaches the red ratio of the maximum |
| `Backpressure.YellowThreshold` | internal/scheduler/ratelimit/backpressure.go:91-108 | yellow from the yellow ratio up to the red one |
| `Backpressure.TotalOf` | internal/scheduler/ratelimit/backpressure.go:120-127 | every load is added once, in whatever order |
| `Backpressure.LoadNeverRelaxes` | internal/scheduler/ratelimit/backpressure.go:111-141 | a load report never lowers the pressure |
| `Backpressure.RedIff` | internal/scheduler/ratelimit/backpressure.go:91-141 | over any sequence of pending counts and load reports the controller is red exactly if an overload has not been followed by a pending count |
| `Backpressure.Controller.UpdatePending` | internal/scheduler/ratelimit/backpressure.go:91-108 | the state is that of the signals so far, and follows the new count alone |
| `Backpressure.Controller.UpdateWorkerLoad` | internal/scheduler/ratelimit/backpressure.go:111-141 | the state is that of the signals so far |
| `Backpressure.Controller.AllowDispatch` | internal/scheduler/ratelimit/backpressure.go:151-153 | refuses exactly if some overload signal has not been followed by a pending count |
| `TokenBucket.Create` | internal/scheduler/ratelimit/limiter.go:18-31 | a new bucket is full and usable; positive arguments are kept |
| `TokenBucket.Limiter.constructor` | internal/scheduler/ratelimit/limiter.go:18-31 | the object starts as that bucket |
| `TokenBucket.Limiter.DoRefill` | internal/scheduler/ratelimit/limiter.go:64-72 | adds what accrued, up to the capacity |
| `TokenBucket.Limiter.TryTake` | internal/scheduler/ratelimit/limiter.go:39-49 | refills and takes all requested tokens or none |
| `TokenBucket.Limiter.WaitTime` | internal/scheduler/ratelimit/limiter.go:52-62 | refills and answers the truncated wait |
| `TokenBucket.RunKeeps` | internal/scheduler/ratelimit/limiter.go:39-72 | on every run the tokens stay between zero and the capacity |
| `TokenBucket.TokensAreLeastRoom` | internal/scheduler/ratelimit/limiter.go:39-72 | the tokens are exactly the least room any window since the start leaves |
| `TokenBucket.GrantedAtMost` | internal/scheduler/ratelimit/limiter.go:39-72 | no stretch of a run grants more than capacity plus rate times length |
| `TokenBucket.GrantedIff` | internal/scheduler/ratelimit/limiter.go:39-49 | a fresh bucket grants a request if and only if every window stays within capacity plus rate times length |
| `TokenBucket.TooMuchIsNeverGranted` | internal/scheduler/ratelimit/limiter.go:39-49 | a request above the capacity never succeeds |
| `TokenBucket.RefillLater` | internal/scheduler/ratelimit/limiter.go:64-72 | an extra refill in between changes nothing |
| `TokenBucket.WaitIsExact` | internal/scheduler/ratelimit/limiter.go:52-62 | before the announced wait a request fails, from one nanosecond after it succeeds, at it succeeds if and only if no fraction was dropped |
| `TokenBucket.WaitCanFallShort` | internal/scheduler/ratelimit/limiter.go:61-61 | an input for which the announced wait is too short |
| `TokenBucket.SustainedRate` | internal/ai/handler.go:67-70 | the refill rate stays within the limit exactly from 60 a minute on and equals it exactly for multiples of 60; below 60 it is 60000 a minute |
| `TokenBucket.MostGranted` | internal/ai/handler.go:67-80 | the most requests of one token each that any stretch of a run is granted is exactly the limit plus the whole tokens that accrue in it |
| `TokenBucket.LimitHoldsIff` | README.md:138-138 | the limit holds over a stretch if and only if no token accrues in it; over a minute, or a second, for no setting |
| `ConcurrencyLimiter.Start` | internal/scheduler/ratelimit/limiter.go:83-90 | the limiter starts within its invariant |
| `ConcurrencyLimiter.RunKeeps` | internal/scheduler/ratelimit/limiter.go:93-110 | in every interleaving 0 <= current <= limit and no wake-up is lost |
| `ConcurrencyLimiter.RunKeepsExact` | internal/scheduler/ratelimit/limiter.go:93-110 | if callers release only what they hold, current is the number of holders, at most the limit |
| `ConcurrencyLimiter.StrayOverbooks` | internal/scheduler/ratelimit/limiter.go:103-110 | a run in which one release without a slot lets two callers share a limit of one |
| `ConcurrencyLimiter.ExactIff` | internal/scheduler/ratelimit/limiter.go:93-110 | from an exact counter, it is the number of holders in every state of a run if and only if no caller without a slot releases while one is in use |
| `ConcurrencyLimiter.HoldersAre` | internal/scheduler/ratelimit/limiter.go:93-110 | the holders are the counter plus its drift, and exceed the limit exactly if the drift exceeds the slots shown as free |
| `ConcurrencyLimiter.EveryoneIsServed` | internal/scheduler/ratelimit/limiter.go:93-110 | once arrivals stop every run is finite and one that cannot go on has served everybody |
| `ConcurrencyLimiter.Limiter.Acquire` | internal/scheduler/ratelimit/limiter.go:93-100 | one turn of the waiting loop takes a slot exactly if one is free, and sleeps otherwise |
| `ConcurrencyLimiter.Limiter.Release` | internal/scheduler/ratelimit/limiter.go:103-110 | frees a slot and wakes one sleeper |
| `TimingWheel.Create` | internal/scheduler/engine/timing_wheel.go:30-46 | a new wheel is valid and at position 0 |
| `TimingWheel.EpochTimesFit` | internal/scheduler/engine/timing_wheel.go:53-55 | times since the epoch always have a slot |
| `TimingWheel.WheelRefinesAgenda` | internal/scheduler/engine/timing_wheel.go:49-80 | every operation is the queue operation on the sets of the coming ticks |
| `TimingWheel.FiredIff` | internal/scheduler/engine/timing_wheel.go:49-80 | a tick returns a task if and only if its agenda entry held it and it was not removed before |
| `TimingWheel.AddedFiresOnce` | internal/scheduler/engine/timing_wheel.go:49-80 | an added task is returned once, within one turn, at the tick that reaches its slot, unless removed |
| `TimingWheel.TimingWheel.constructor` | internal/scheduler/engine/timing_wheel.go:30-46 | the object starts as a new wheel |
| `TimingWheel.TimingWheel.Add` | internal/scheduler/engine/timing_wheel.go:49-56 | adds to the slot of the time; fails exactly where the index would be negative |
| `TimingWheel.TimingWheel.Remove` | internal/scheduler/engine/timing_wheel.go:59-65 | removes the task from every slot |
| `TimingWheel.TimingWheel.Tick` | internal/scheduler/engine/timing_wheel.go:68-80 | advances, returns and clears the slot |
| `TaskHeap.UpKeeps` | internal/scheduler/engine/engine.go:50-54 | sifting up permutes the entries |
| `TaskHeap.PushedKeeps` | internal/scheduler/engine/engine.go:50-54 | a push adds exactly the new entry |
| `TaskHeap.PushedShapes` | internal/scheduler/engine/engine.go:50-54 | a push keeps the heap shape |
| `TaskHeap.FrontIsEarliest` | internal/scheduler/engine/heap.go:31-36 | in a heap the front entry is the earliest |
| `TaskHeap.DrainSplits` | internal/scheduler/engine/heap.go:39-51 | a drain splits the entries by time and conserves all of them |
| `TaskHeap.DrainKeepsOrder` | internal/scheduler/engine/heap.go:39-51 | a drain keeps the order of the fired and of the kept entries |
| `TaskHeap.DrainLosesShape` | internal/scheduler/engine/heap.go:39-51 | a heap whose drain leaves a later entry in front and no heap |
| `TaskHeap.FrontFirstIff` | internal/scheduler/engine/heap.go:30-51 | after draining a heap the front is the earliest if and only if the first kept entry came before every kept entry without a kept parent |
| `TaskHeap.FiresAtFirstTick` | internal/scheduler/engine/engine.go:88-98 | a tick fires exactly the copies pushed since the last tick that reached them |
| `TaskHeap.FiresOnce` | internal/scheduler/engine/engine.go:88-98 | an entry pushed once fires once, at the first tick at or after its time |
| `TaskHeap.RunConserves` | internal/scheduler/engine/engine.go:50-98 | what was there and was pushed is what fired and is still there |
| `TaskHeap.Heap.Push` | internal/scheduler/engine/engine.go:50-54 | append and sift-up in the array |
| `TaskHeap.Heap.PopUntil` | internal/scheduler/engine/heap.go:39-51 | the in-place drain of the array returns the due entries and keeps the others; from a heap, the front stays earliest exactly under TopsFollow |
| `TaskHeap.Heap.Peek` | internal/scheduler/engine/heap.go:31-36 | the front entry, if any, which in a heap is the earliest |
| `WebSocket.NumberOfBigEndian` | internal/ai/stream/ws.go:76-86 | reading big-endian bytes undoes writing them |
| `WebSocket.NumberHead` | internal/ai/stream/ws.go:150-167 | the first byte of a length is the most significant |
| `WebSocket.XorIs` | internal/ai/stream/ws.go:180-184 | the exclusive or of two bytes is the one byte whose every bit is 1 exactly if the two bits differ |
| `WebSocket.FrameIs` | internal/ai/stream/ws.go:62-90 | the header of a server's frame for every length, and the payload as it is |
| `WebSocket.HelloIsRead` | internal/ai/stream/ws.go:143-186 | the plain and the masked "Hello" of section 5.7 of RFC 6455 are read as these five bytes |
| `WebSocket.MaskTwice` | internal/ai/stream/ws.go:180-184 | unmasking inverts masking for every key |
| `WebSocket.RoundTrip` | internal/ai/stream/ws.go:62-186 | reading a frame of any payload below 2^63 bytes returns it and leaves what follows |
| `WebSocket.PrefixIsShort` | internal/ai/stream/ws.go:143-179 | a frame cut off anywhere is a short read |
| `WebSocket.FrameIsShortest` | internal/ai/stream/ws.go:70-87 | no input read as this payload is shorter than the written frame |
| `WebSocket.StreamIsRead` | internal/ai/stream/ws.go:62-186 | the payloads of consecutive frames are read in order |
| `WebSocket.WriterSends` | internal/ai/stream/ws.go:62-130 | the bytes sent are the frames through the first closing event and one close frame |
| `WebSocket.PeerReads` | internal/ai/stream/ws.go:62-186 | the peer reads every event through the closing one, then the close, and nothing after it |
| `WebSocket.Connection.WriteFrame` | internal/ai/stream/ws.go:62-90 | appends the frame of the payload unless closed |
| `WebSocket.Connection.SendLast` | internal/ai/stream/ws.go:113-130 | last event, close frame, and nothing more ever |
| `WebSocket.Connection.Unmask` | internal/ai/stream/ws.go:180-184 | the in-place loop masks the whole array |
| `WebSocket.Connection.ReadFrame` | internal/ai/stream/ws.go:143-186 | reads one frame, with short reads, close frames and negative lengths, and leaves exactly what is still unread |
| `ToolCalls.Accumulate` | internal/ai/adapter/adapter.go:371-394 | the loop absorbs every fragment into its call |
| `ToolCalls.FinalCalls` | internal/ai/adapter/adapter.go:407-414 | the loop emits the calls below the number of calls |
| `ToolCalls.Stream` | internal/ai/adapter/adapter.go:339-420 | the events of a whole answer |
| `ToolCalls.CallIsJoined` | internal/ai/adapter/adapter.go:371-394 | each call is put together from its own fragments, in order, whatever the interleaving |
| `ToolCalls.ArgumentsAdd` | internal/ai/adapter/adapter.go:373-375 | the arguments are those of the fragments in order |
| `ToolCalls.LastCounts` | internal/ai/adapter/adapter.go:376-381 | the last name and the last ID that are given count |
| `ToolCalls.InterleavingIsIrrelevant` | internal/ai/adapter/adapter.go:371-394 | equal fragments per call give equal calls |
| `ToolCalls.EmittedAre` | internal/ai/adapter/adapter.go:407-414 | the final event carries, in order of their indexes and each from its own fragments, exactly the calls whose index lies below the number of calls |
| `ToolCalls.AllCallsIff` | internal/ai/adapter/adapter.go:407-414 | every call is carried if and only if no index in the fragments is negative or comes without all smaller ones; then call i is at place i |
| `ToolCalls.LoneSecondIsDropped` | internal/ai/adapter/adapter.go:407-414 | a lone call with index 1 is dropped |
| `ToolCalls.DeltasAreContent` | internal/ai/adapter/adapter.go:401-404 | the text deltas spell the whole content |
| `ToolCalls.ContentAdds` | internal/ai/adapter/adapter.go:395-404 | content, reasoning and fragments of an answer are those of its parts in order |
| `ToolCalls.FinalEvent` | internal/ai/adapter/adapter.go:406-420 | the final event carries the calls and the reasoning of the whole answer, whatever the chunk boundaries |
| `AgentLoop.Receive` | internal/ai/agent/engine.go:50-71 | the first error, if there is one; else the texts joined in order and the calls and the reasoning of the last event that has any |
| `AgentLoop.TextAdds` | internal/ai/agent/engine.go:61-64 | what comes first is spelled first |
| `AgentLoop.StreamedContent` | internal/ai/agent/engine.go:48-71 | the content of a streamed answer is the content of its chunks in order |
| `AgentLoop.StreamedCalls` | internal/ai/agent/engine.go:48-71 | its calls and reasoning are put together from all its chunks |
| `AgentLoop.CallTools` | internal/ai/agent/engine.go:88-110 | one tool message per call and the names that succeeded |
| `AgentLoop.Run` | internal/ai/agent/engine.go:25-125 | every request but the last was answered with calls and is extended by that answer and, call by call, the text of each outcome; the last answer is the result, with the successful calls of all rounds in order |
| `AgentLoop.BlockKeeps` | internal/ai/agent/engine.go:79-111 | appending a calling message and its tool messages keeps a transcript well formed |
| `AgentLoop.RunIsWellFormed` | internal/ai/agent/engine.go:25-125 | at most ten requests, each well formed and extending the one before, the first being prompt, history and user message; giving up only after ten |

## Left out

- Interleavings inside a handler: releasing a worker writes back the copy taken when it was picked, and the terminal
  check and the write of a report are separate repository calls, so two handlers that overlap can break the invariants.
- Failing repository calls and the MySQL repositories, which drop some fields.
- Heartbeats that overwrite a worker's load, eviction of stale workers, event-triggered dispatch, and the hybrid engine's
  trigger callback, which bypasses the dependency gate.
- Creating, updating and deleting tasks while instances exist, except for their next trigger time and dependency edges.
- Leader election, authentication, HTTP and gRPC plumbing, generated protobuf code, tracing, audit, alerts and metrics.
- Decoding of label JSON; labels are maps.
- Timestamps, error messages and analysis results of instances.
- Two instances that get the same nanosecond schedule ID; the index then points to the later one, and `Delivery` assumes
  it does not happen.
- Overflow of the round-robin counter and of the instance counter.
- A worker without a local store, which drops what it cannot report, and a worker crash between the end of an execution
  and the write of its buffer file.
- Corrupt or unreadable buffer files, and reports changed on disk.
- Rounding of `float64` in the token bucket and the pressure ratios.
- Saturation of durations longer than 292 years.
- Time zones with daylight saving: cron matching is in UTC.
- Order of wake-ups of the condition variable; a signal picks any sleeper. Nothing is claimed about fairness.
- Tickers, the loops that drive the steps, and the periodic warming of the engine.
- WebSocket handshake, JSON encoding of events, fragmented and binary frames, and failing writes.
- Allocation failure for a huge announced frame length below 2^63.
- The event stream the agent shows to the user while it works, and tool results beyond their text.
- RunIsWellFormed: histories hold no tool calls or tool messages, because the stored history is rebuilt from roles and
  contents only.
- The duration statistics of the prediction service (minimum, maximum, average and two percentiles of a sorted list) and
  the natural-language tools, whose results come from the model.
