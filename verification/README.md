# Void_OS-Merger control plane: a Dafny model

This project models the master's control plane and the worker's half of lease recovery of
Void_OS-Merger, and proves what they promise. Each C module keeps fixed-size tables that are changed
under one lock, so every public call is one atomic step; runs are sequences of such steps.

| files | subject |
|---|---|
| `PlanGraph`, `ChunkIdMixer`, `ChunkPlanner` | dependency graphs, chunk ids, planning strategies and the topology check |
| `ResultHash`, `WorkloadJob`, `WorkloadTheorems`, `WorkloadContext`, `WorkloadHistory` | the workload engine over arbitrary graphs, its result hash, its table of jobs and their deadlines |
| `SchedulerModel`, `SchedulerScore`, `SchedulerInvariants`, `SchedulerLedger`, `SchedulerGreedy`, `SchedulerMaximality`, `SchedulerHistory`, `Scheduler` | placement, leases and reservations |
| `ClusterModel`, `ClusterHistory`, `ClusterState`, `WalImage`, `WalTheorems` | cluster state, snapshot ring, and its binary image as the dashboard reads it |
| `MasterRecoveryModel`, `MasterRecoveryLaws`, `MasterRecovery` | heartbeats, sweeps and results on the master |
| `WorkerRecoveryModel`, `WorkerRecoveryLaws`, `WorkerRecovery` | lease recovery on the worker |
| `ExecutorModel`, `ExecutorOutcome`, `Executor` | concurrent executor runs over one resource pool |
| `MachineInts`, `Counting`, `Options` | shared vocabulary |

Where the source changes tables in place there is a class over arrays. Its methods are proved to have
exactly the effect of functions on values, and the properties of whole runs are proved about those
functions. A run is given by the sequence of its states; the statements quantify over every run. What
the functions compute is in turn stated without them: as laws between calls, as a fold of the calls made,
or from the inputs alone (the `Laws`, `History`, `Score` and `Outcome` modules).

Unsigned counters are ranges of `int`, and sums that can wrap are reduced where the source computes
them. Times, ids, the workload's base hash, the outcome of system calls and the contents of struct
padding are parameters. Pointers handed to the C functions are taken to be non-null, and strings to
fit their buffers.

Findings of the proofs; where a property fails, the exact condition is proved and the failure is shown
in a run or for a whole family of inputs:

- The topology check is exact for exactly those id lists that are distinct or all equal; over all other
  ids it accepts a plan with a cycle. It never turns away a plan that can be ranked (`ExactIff`,
  `CyclicPlanAccepted`, `CompletableMeaning`).
- The workload engine ignores edges whose source is not in the job. It never gets stuck on what the
  check accepts (`AcceptedNeverStuck`); in general it can be driven into a dead end exactly when the job
  has a dead core (`NeverStuckIffNoCore`), for distinct ids exactly when its edges cannot be ordered
  (`NeverStuckIffOrderable`).
- The aggregated result hash shows every one-byte change of a checksum, but not where one checksum ends
  and the next begins (`ChecksumChangeShows`, `OnlyJoinedMatters`).
- Registering a worker again, or resubmitting a leased chunk, keeps the reservation ledger exactly
  when nothing that matters changed (`ReRegisterBalancedIff`, `ResubmitBalancedIff`).
- No job status is final: a report that fails a chunk or completes the last one overrides it, so
  cancelled and overdue jobs can still fail or complete (`StatusSurvivesReportIff`, `EndedJobCompletes`).
- Reports are not checked against the dependencies; exactly the reports that keep them are given by
  `ReportKeepsSafeIff`.
- An unblocked chunk without a valid lease can be left waiting by a tick although a worker could take
  it; the queue and the leases allow this exactly when a later chunk's lease has run out
  (`MaximalityGuaranteedIff`, `ExpiryCounterexample`).
- The fifth concurrent snapshot overwrites a held one (`AcquireKeepsHeldIff`, `FifthSnapshotOverwrites`).
- The reservation test of the executor is safe exactly when twice the capacity fits the counters
  (`SafeIffRoomy`); a failed fork, and nothing else, ends a run without a final report
  (`OutcomeReportedIff`).
- On the master the retry limit of three is never reached (`RetryLimitNeverBinds`), and a lease id can be
  both committed and requeued exactly when it was handed out twice (`NeverBothIffDistinct`).
- On the worker, revoked leases are never freed; sixteen of them, and nothing else, end its service for
  good (`RevokedNeverFreed`, `CanServeIffNotExhausted`).
- The dashboard hides a worker or lease exactly when its id is zero (`AllShownIff`).

The header `master/include/master/cluster_state.h` declares other table sizes and enumerations than
`master/src/cluster_state.c`, which does not include it; the model follows the C file.

## Model

| member | source | states |
|---|---|---|
| `ChunkPlanner.VerifyPlanTopologyIsDag` | master/src/chunk_planner.c:165-210 | For every plan: accepted iff valid, non-empty and completable in the sense of Kahn's queue; with distinct or all equal ids, iff the graph has a ranking in which every edge into a plan chunk comes from a plan chunk of smaller rank; a rankable plan is never rejected; a valid plan in which a repeated id pays for a self-loop is accepted although it has no ranking |
| `ChunkPlanner.ProcessQueue` | master/src/chunk_planner.c:179-209 | The queue loop dequeues all positions exactly when the graph can be completed; for every plan (also with repeated ids) no position is queued twice, so all accesses to the 64-slot arrays are in range |
| `ChunkPlanner.CountInDegrees` | master/src/chunk_planner.c:168-177 | The in-degree table holds, per position, the number of edges that lead to its id |
| `ChunkPlanner.QueueRoots` | master/src/chunk_planner.c:179-186 | Exactly the positions without in-edges are queued, once each |
| `ChunkPlanner.ReleaseSuccessors` | master/src/chunk_planner.c:190-206 | Following the edges of a dequeued chunk subtracts exactly those edges and queues exactly the positions whose counter reaches zero |
| `PlanGraph.CompletableMeaning` | master/src/chunk_planner.c:165-210 | Rankable implies completable for all graphs; for ids that are distinct or all equal the two are equivalent |
| `PlanGraph.ExactIff` | master/src/chunk_planner.c:165-210 | The check's criterion and rankability agree for all edges over the given ids iff the ids are distinct or all equal |
| `PlanGraph.RepeatedIdCounterexample` | master/src/chunk_planner.c:194-204 | For all ids with a repeated a and another b: with the edges a to b and b to b the graph is completable although b waits for itself |
| `ChunkPlanner.CyclicPlanAccepted` | master/src/chunk_planner.c:165-210 | For all chunks whose ids are neither distinct nor all equal there is a valid plan over them with a self-loop that the check accepts |
| `ChunkIdMixer.ChunkIdRoundTrip` | master/src/chunk_planner.c:60-68 | For every base hash the id mixer is a bijection on 64-bit words: the index can be computed back from the id, and every word is the id of an index |
| `ChunkIdMixer.ChunkIdsDiffer` | master/src/chunk_planner.c:60-68 | Two chunk indices of one workload never get the same id |
| `ChunkPlanner.PlanIndependentBatch` | master/src/chunk_planner.c:97-117 | Four numbered chunks without edges, each with a quarter of the input plus overhead, on four different nodes, local exactly on the data node |
| `ChunkPlanner.BatchShare` | master/src/chunk_planner.c:102-109 | The four memory shares cover the input up to the remainder, and adding the overhead never wraps |
| `ChunkPlanner.PlanSequentialPipeline` | master/src/chunk_planner.c:119-143 | Four numbered chunks joined into one chain on the data node |
| `ChunkPlanner.ChosenFrom` | master/src/chunk_planner.c:88-95 | The first registration of the type that carries a function; none iff no registration of the type has one |
| `ChunkPlanner.FindStrategy` | master/src/chunk_planner.c:88-95 | The registry loop finds exactly that function |
| `ChunkPlanner.GenerateChunkGraph` | master/src/chunk_planner.c:145-163 | An unsplittable workload or a strategy without a function fails and leaves an empty invalid plan; a built-in function succeeds, for every base hash, with distinct ids and a plan the topology check accepts; a function from outside decides success and plan itself |
| `ChunkPlanner.ChainIsRankable` | master/src/chunk_planner.c:136-139 | A chain over distinct ids is ranked by position |
| `WorkloadJob.EvaluateReadyChunks` | master/src/workload.c:139-162 | The in-place pass equals judging every pending chunk in the same state: ready iff each in-job parent is completed |
| `WorkloadJob.RecalculateJobProgress` | master/src/workload.c:164-189 | Progress is the completed share; failed as soon as one chunk failed, completed when all are, with the aggregated hash set exactly then |
| `WorkloadJob.AggregateHash` | master/src/workload.c:179-187 | The nested loop computes FNV-1a over the checksums' bytes in chunk order |
| `ResultHash.ChecksumChangeShows` | master/src/workload.c:180-186 | Whatever the other checksums are, results that differ in one byte of one checksum have different hashes |
| `ResultHash.OnlyJoinedMatters` | master/src/workload.c:180-186 | The hash is a function of the checksums joined together: it does not see where one ends and the next begins |
| `WorkloadContext.ReportedHash` | master/src/workload.c:249-256 | A report sets the hash iff it completes the job, over the checksums with the reported one in place; otherwise the hash stays |
| `WorkloadContext.HashTellsChecksums` | master/src/workload.c:249-256 | Completing the same job with checksums that differ in one byte leaves different hashes |
| `WorkloadJob.ReportChunk` | master/src/workload.c:247-258 | The first chunk with the id takes the state and checksum, then promotion and progress; unknown ids change nothing |
| `WorkloadTheorems.RankableIffOrderable` | master/src/workload.c:144-154 | For distinct ids the topology check's rankings are the engine's orderings plus every edge source being in the job |
| `WorkloadTheorems.AcceptedNeverStuck` | master/src/workload.c:139-162 | In every run of reports about any chunk with any state, a job submitted over any graph the topology check accepts, with repeated ids or not, never has only pending and completed chunks with one unfinished |
| `WorkloadTheorems.OrderableNeverStuck` | master/src/workload.c:139-162 | From whatever chunk states it starts, a job whose in-job edges can be ordered is never stuck in any run |
| `WorkloadTheorems.NeverStuckIffOrderable` | master/src/workload.c:240-265 | For distinct ids a submitted job can be driven into a dead end iff its in-job edges cannot be ordered; for closed graphs, iff the topology check rejects it |
| `WorkloadTheorems.NeverStuckIffNoCore` | master/src/workload.c:139-265 | For all submitted jobs, whatever their ids and edges: some run of reports reaches a dead end iff there is a non-empty set of first-of-their-id chunks for which each of them, and every other chunk that repeats an id, waits |
| `WorkloadTheorems.DeadEnd` | master/src/workload.c:139-162 | For an unorderable job, a concrete run of truthful completions that leaves it stuck |
| `WorkloadTheorems.TruthfulRunsAreSafe` | master/src/workload.c:139-162 | In every run of reports about handed-out chunks, no chunk has left pending unless all its parents are completed |
| `WorkloadTheorems.CompletedStays` | master/src/workload.c:247-255 | In such runs a completed chunk stays completed |
| `WorkloadTheorems.ReportKeepsSafeIff` | master/src/workload.c:248-254 | For a report of any kind: dependencies stay safe iff the chunk is unknown, or it may be in the reported state (pending, or all parents done) and, unless it is reported completed, no chunk that left pending depends on it |
| `WorkloadTheorems.RunSafeIff` | master/src/workload.c:240-265 | A run of arbitrary reports is dependency-safe at all times iff every report in it satisfies that condition |
| `WorkloadTheorems.RetractionCounterexample` | master/src/workload.c:248-249 | A run from the start in which taking back a completed parent leaves its child ready over an unfinished parent |
| `WorkloadTheorems.RunLength` | master/src/workload.c:240-265 | Completing ready chunks reports no chunk twice; all chunks are completed exactly when there were as many reports as chunks |
| `WorkloadTheorems.RunIsTopological` | master/src/workload.c:143-157 | Every completion order lists parents before children |
| `WorkloadTheorems.CompletionsFinishJob` | master/src/workload.c:164-178 | On an accepted graph, completing any ready chunk over and over always finds a next one, and after exactly chunk_count reports the job is completed with progress 1 |
| `WorkloadContext.PlannedJobAccepted` | master/src/workload.c:104-121 | The built-in three-chunk chain has distinct ids and is accepted by the topology check, for every workload id |
| `WorkloadContext.StatusSurvivesReportIff` | master/src/workload.c:164-178 | The status after a report on a job in any status, from the job and the report alone: failed iff the report or another chunk is a failure, else completed iff the report is the last missing completion, else unchanged; hence exactly when a status survives |
| `WorkloadContext.CancelledJobFails` | master/src/workload.c:224-256 | A submitted and cancelled job is moved to failed by a failure reported for its first chunk |
| `WorkloadContext.EndedJobCompletes` | master/src/workload.c:240-283 | A submitted job in any status, in particular cancelled or failed by its deadline, keeps it through the first two completions and is completed by the third |
| `WorkloadContext.Context.constructor` | master/src/workload.c:125-131 | Starts with no job and the first workload id |
| `WorkloadContext.Context.Submit` | master/src/workload.c:191-222 | Refuses unsplittable workloads and a full table; otherwise appends the promoted plan under a new id (what that job is: `PlannedContents`, `SubmitThenCheck`, `DeadlineDecides`) and keeps every job off dead ends |
| `WorkloadContext.Context.UpdateChunkResult` | master/src/workload.c:240-265 | Reaches exactly the named job, iff it has the chunk; other jobs are untouched and no job is left stuck |
| `WorkloadContext.Context.Cancel` | master/src/workload.c:224-238 | Marks exactly the named job cancelled |
| `WorkloadContext.Context.CheckDeadlines` | master/src/workload.c:267-283 | Fails exactly the executing jobs whose elapsed seconds (with unsigned wrap) reached the deadline |
| `WorkloadHistory.PlannedContents` | master/src/workload.c:104-121 | The planned job is executing since the submission under the given deadline, without progress or hash, over a chain of three pending chunks with the id shifted by 16 bits, a third of the input each, the given intensity and node |
| `WorkloadHistory.PlannedIdsDiffer` | master/src/workload.c:110 | Planned chunks share an id iff their index is the same and their workload ids agree in the low 48 bits |
| `WorkloadHistory.SubmittedIff` | master/src/workload.c:191-222 | A workload is taken on iff it can be split and fewer than 32 are there; the jobs before it stay as they are |
| `WorkloadHistory.SubmitThenCheck` | master/src/workload.c:213-278 | A job submitted at one time and judged at a later one is failed iff at least its deadline has passed between the two, and executing otherwise |
| `WorkloadHistory.DeadlineDecides` | master/src/workload.c:191-283 | In every run of calls a job that is neither reported on nor cancelled is failed iff some deadline check since its submission came at least its deadline after it, and executing until then; its start and deadline are those of its submission |
| `WorkloadHistory.CheckedJobs` | master/src/workload.c:267-283 | A check fails exactly the executing jobs whose wrapped elapsed milliseconds reach a thousand times the deadline |
| `WorkloadHistory.ReportReachesItsJob` | master/src/workload.c:240-258 | In a table numbered as every reachable one is, a report changes exactly the job that carries the workload id |
| `WorkloadHistory.CancelReachesItsJob` | master/src/workload.c:224-238 | Likewise a cancellation marks exactly that job |
| `WorkloadHistory.AcceptedIff` | master/src/workload.c:240-265 | A report is accepted iff some job carries the workload id and one of its chunks the chunk id |
| `WorkloadHistory.ChecksumsFollowReports` | master/src/workload.c:247-253 | In every run of reports a chunk's checksum is the last one reported for its id, cut to 63 characters, or the one it started with |
| `WorkloadHistory.ProgressIsShare` | master/src/workload.c:164-173 | After every accepted report progress is the size of the set of completed chunks over the number of chunks |
| `WorkloadHistory.RunProgress` | master/src/workload.c:164-173 | Completing ready chunks one after another, progress after t reports is t over the number of chunks |
| `SchedulerModel.Best` | master/src/scheduler.c:176-187 | The first worker with the highest score among those that pass the filters and beat the floor; none iff there is none (filters and score: `FiltersMean`, `ScoreShares`, `PreferredIsChosen`) |
| `SchedulerScore.FiltersMean` | master/src/scheduler.c:111-124 | A worker passes the filters iff it is healthy, not draining, of the platform, runtime and input asked for and has room for the demands; it can be chosen iff moreover it has CPU units and its score beats the floor |
| `SchedulerScore.NodeNumberReads` | master/src/scheduler.c:133-136 | For every seven-character prefix followed by blanks, a sign, zeros and the decimal digits of an n below 2^31, and then any text that does not start with a digit: the node number is n, or its 32-bit negative |
| `SchedulerScore.NodeNumberRoundTrip` | master/src/scheduler.c:133-136 | Writing any n below 2^31 in decimal behind a seven-character prefix, with or without leading zeros, and reading the node number gives n |
| `SchedulerScore.NoNumberIsZero` | master/src/scheduler.c:133-136 | A name without a number behind the prefix has node number zero |
| `SchedulerScore.ScoreShares` | master/src/scheduler.c:126-143 | Differences of scores: 40 points times the share of CPU freed, 30 times the gain in reliability, a tenth of a point per percent of battery, and no battery counts as a full one |
| `SchedulerScore.PreferredScoresMore` | master/src/scheduler.c:133-136 | The preferred worker scores exactly 20 points more than an otherwise equal one |
| `SchedulerScore.PreferredIsChosen` | master/src/scheduler.c:133-187 | Of two otherwise equal workers in any table, wherever they stand, the one that does not carry the preferred number is never chosen |
| `SchedulerInvariants.RunsAreConsistent` | master/src/scheduler.c:62-250 | In every reachable state active leases are for distinct queued chunks and name registered workers, and table ids are unique |
| `SchedulerInvariants.SlotAvailable` | master/src/scheduler.c:202-214 | Pigeonhole: an unleased queued chunk always finds a free lease slot or room at the end |
| `SchedulerInvariants.PlaceKeepsConsistent` | master/src/scheduler.c:189-214 | A placement changes nothing, or charges one worker and both records and returns one lease: no reservation without a lease |
| `SchedulerInvariants.ChargeNeverWraps` | master/src/scheduler.c:117-121 | The 8-bit and 64-bit additions of a placement never wrap, in any state |
| `SchedulerInvariants.RunsNeverOvercommit` | master/src/scheduler.c:73-250 | If registered views are within capacity, no worker is ever reserved beyond it, even with re-registration and resubmission |
| `SchedulerLedger.RunsConserve` | master/src/scheduler.c:160-238 | Over every run without re-registration or changed demand of a leased chunk, reserved CPU, reserved memory and active chunks equal the registered ones plus the sums over active leases naming the worker |
| `SchedulerLedger.GuardsHold` | master/src/scheduler.c:162-163 | In a balanced state the subtraction guards of expiry and release always hold |
| `SchedulerLedger.ReRegisterBalancedIff` | master/src/scheduler.c:76-81 | Re-registering keeps the ledger iff the new view reports the reservations it overwrites |
| `SchedulerLedger.ResubmitBalancedIff` | master/src/scheduler.c:95-100 | Resubmitting a leased chunk keeps the ledger iff its demand is unchanged |
| `SchedulerLedger.ReRegisterCounterexample` | master/src/scheduler.c:76-81 | For every worker and every chunk it can take, a run from empty tables after which registering the worker again as it was unbalances the ledger |
| `SchedulerLedger.ResubmitCounterexample` | master/src/scheduler.c:95-100 | For every such pair, a run after which resubmitting the leased chunk with any other demand unbalances the ledger |
| `SchedulerGreedy.TickHandsOut` | master/src/scheduler.c:145-222 | A tick returns at most the allowed number of leases, for distinct queued chunks, and all of them are active in the table at its end |
| `SchedulerGreedy.PlacementIsBest` | master/src/scheduler.c:176-200 | Each returned lease names the first maximum-score eligible worker of its turn, and only that worker is charged |
| `SchedulerGreedy.PlacementSuits` | master/src/scheduler.c:111-124 | The worker named by a returned lease is healthy, not draining and of the right platform, runtime and input, and stays within the capacity the chunk draws on after it has been charged |
| `SchedulerGreedy.ReleaseUndoesPlace` | master/src/scheduler.c:189-250 | Placing an unleased chunk and releasing it restores every worker, takes exactly that chunk off the queue and leaves exactly the other active leases |
| `SchedulerGreedy.LeaseHolds` | master/src/scheduler.c:156-197 | A lease given at a time holds through every later turn of its chunk up to 30000 ms after it, and has run out iff the turn comes later |
| `SchedulerHistory.WorkersAreAsRegistered` | master/src/scheduler.c:73-250 | In every run a worker in the table is, up to its reservations, what it was last registered as |
| `SchedulerHistory.ChunksAreAsSubmitted` | master/src/scheduler.c:92-250 | In every run every queued chunk is what was last submitted under its id |
| `SchedulerHistory.RegisteredOrRefused` | master/src/scheduler.c:73-90 | Registration succeeds iff the worker is known or fewer than 64 are there, and then the table shows the new view; otherwise nothing changes |
| `SchedulerHistory.QueuedOrRefused` | master/src/scheduler.c:92-109 | Submission succeeds iff the chunk is known or fewer than 128 are queued, and then the queue shows it; otherwise nothing changes |
| `SchedulerHistory.ReleaseEndsLease` | master/src/scheduler.c:224-250 | In a table with one active lease per chunk, as every reachable one: after a release the chunk has no active lease, and the leases of all other chunks are as before |
| `SchedulerGreedy.ScoreRange` | master/src/scheduler.c:126-143 | Within the intended ranges scores lie between 0 and 100, and 100 is reached exactly by an idle, fully reliable, preferred worker on full or no battery (what the preferred node is: `NodeNumberReads`) |
| `SchedulerGreedy.FreerScoresHigher` | master/src/scheduler.c:128-130 | Of two otherwise equal workers the one with less reserved CPU scores strictly higher |
| `SchedulerGreedy.TickIsMaximal` | master/src/scheduler.c:149-219 | If a tick is not cut short, workers are fair and no lease of an unblocked chunk behind chunk i runs out in it, then chunk i, if unblocked and left unleased, fails the filters on every worker in the final state; its own lease and earlier ones may run out |
| `SchedulerMaximality.MaximalityGuaranteedIff` | master/src/scheduler.c:149-219 | The queue and the lease table guarantee maximality at chunk i, whatever the fair workers, the demands and the limit, iff the chunk is blocked, its lease still holds, or no unblocked chunk behind it has a lease that has run out |
| `SchedulerMaximality.ExpiryCounterexample` | master/src/scheduler.c:157-173 | A run from empty tables to a state whose next tick leaves the first chunk waiting although a worker could take it, because a later lease runs out |
| `SchedulerGreedy.FiltersAntitone` | master/src/scheduler.c:111-124 | Reserving more never lets a chunk through the filters |
| `Scheduler.Tables.constructor` | master/src/scheduler.c:62-71 | All tables empty |
| `Scheduler.Tables.RegisterWorker` | master/src/scheduler.c:73-90 | Overwrites the worker with the id, appends it, or refuses when full; tables stay consistent |
| `Scheduler.Tables.SubmitReadyChunk` | master/src/scheduler.c:92-109 | Overwrites the chunk with the id, appends it, or refuses when full; tables stay consistent |
| `Scheduler.Tables.FindBestWorker` | master/src/scheduler.c:176-187 | The loop with a running maximum finds exactly the first best worker |
| `Scheduler.Tables.EndLeaseAt` | master/src/scheduler.c:159-167 | The lease becomes inactive and the first worker with its id is refunded |
| `Scheduler.Tables.PlaceChunk` | master/src/scheduler.c:176-215 | Charges the best worker and records the lease in the first free slot or at the end |
| `Scheduler.Tables.TakeTurn` | master/src/scheduler.c:151-218 | The turn of one chunk: skip blocked or leased, expire, place |
| `Scheduler.Tables.RunTick` | master/src/scheduler.c:145-222 | The in-place tick has exactly the modelled effect and output, and keeps the tables consistent |
| `Scheduler.Tables.ReleaseLease` | master/src/scheduler.c:224-250 | Ends the first active lease of the chunk, refunds its worker and removes the chunk; consistency is kept |
| `Scheduler.Tables.RemoveChunk` | master/src/scheduler.c:239-242 | Moving the entries down removes exactly the one chunk, keeping the order |
| `ClusterModel.ApplyKeepsSound` | master/src/cluster_state.c:192-270 | Every call keeps unused slots zero, ids unique, metrics up to date and the status out of bootstrap once a worker exists |
| `ClusterModel.ApplyGeneration` | master/src/cluster_state.c:192-270 | A refused call changes nothing; a successful one raises the generation, strictly iff the counter is not at its maximum |
| `ClusterModel.MetricsExact` | master/src/cluster_state.c:83-99 | The cached figures equal the exact totals over online and draining workers iff those fit their counters |
| `ClusterHistory.WorkersFollowHeartbeats` | master/src/cluster_state.c:192-270 | In every run each worker is as first registered, except for the time of its last heartbeat and being online if it was offline and has been heard of since; a registered worker is missing only when the table was full |
| `ClusterHistory.SucceedsIff` | master/src/cluster_state.c:192-270 | Registration succeeds iff there is room and the id is new, a heartbeat iff the worker is known, a lease report iff there is room or the chunk has a lease |
| `ClusterHistory.RecordFollowsCalls` | master/src/cluster_state.c:101-270 | In every run name and epoch are those given at the start, the generation is one plus the number of successful calls modulo its width, and the status is bootstrap exactly while no worker is registered |
| `ClusterHistory.FiguresCountWorkers` | master/src/cluster_state.c:83-99 | In every run the five cached figures are the sums, modulo their widths, of what the registered online and draining workers bring |
| `ClusterModel.AcquireIsolates` | master/src/cluster_state.c:158-176 | With fewer than four held, acquire uses a free slot, returns the current master state and disturbs no held snapshot |
| `ClusterModel.AcquireKeepsHeldIff` | master/src/cluster_state.c:163-171 | Acquire leaves all held snapshots unchanged iff fewer than four are held or the overwritten one equals the master state |
| `ClusterModel.FifthSnapshotOverwrites` | master/src/cluster_state.c:158-176 | From every new context and for every successful change, a run with four snapshots out after which the next acquisition changes one that is held |
| `ClusterModel.ReleaseIsolates` | master/src/cluster_state.c:178-190 | Releasing one snapshot leaves the others isolated |
| `ClusterModel.RingRotates` | master/src/cluster_state.c:158-176 | With nothing held, a snapshot goes to the tail and the next one, also after a release, to the slot behind it, round the ring |
| `ClusterModel.RunsAreGood` | master/src/cluster_state.c:101-270 | Through every interleaving of changes, acquires and releases with at most four held: the record is sound, held snapshots never change, and the counts sum to the held snapshots |
| `ClusterState.Context.constructor` | master/src/cluster_state.c:101-114 | Zeroed tables, generation one, bootstrap, the name cut and padded |
| `ClusterState.Context.RecalculateAggregates` | master/src/cluster_state.c:83-99 | The wrapping accumulation leaves every total modulo its counter width |
| `ClusterState.Context.RegisterWorker` | master/src/cluster_state.c:192-215 | Refuses a full table or a known id; otherwise appends and updates generation, status and metrics |
| `ClusterState.Context.UpdateLeaseStatus` | master/src/cluster_state.c:217-246 | Updates the lease of the chunk or opens one, counts failures and timeouts, refuses when full |
| `ClusterState.Context.ProcessHeartbeat` | master/src/cluster_state.c:248-270 | Stamps the worker, brings it back online, and updates generation and metrics iff it is known |
| `ClusterState.Context.AcquireSnapshot` | master/src/cluster_state.c:158-176 | The bounded search from the tail and the copy have exactly the modelled effect on the ring; the master state is unchanged |
| `ClusterState.Context.ReleaseSnapshot` | master/src/cluster_state.c:178-190 | Lowers the count of the slot if it is positive |
| `WalImage.ParseWal` | webui/server.py:90-219 | For data of any length the offset-driven reader never reads outside the data and returns the specified view |
| `WalImage.ReadWorkers` | webui/server.py:127-152 | The worker loop keeps exactly the complete entries with a nonzero id, in order |
| `WalImage.ReadLeases` | webui/server.py:163-181 | The lease loop keeps exactly the complete entries with a nonzero chunk id, in order |
| `WalTheorems.ImageRoundTrip` | master/src/cluster_state.c:122-135 | Parsing the padded little-endian image of any sound state returns its name, counts, metrics, and its workers and leases in order |
| `WalTheorems.ReachableRoundTrip` | webui/server.py:90-219 | The round trip holds in every state a run of calls can reach |
| `WalTheorems.AllShownIff` | webui/server.py:142-174 | All registered workers (leases) are shown at their own places iff none has id zero |
| `WalTheorems.CutShowsPrefix` | webui/server.py:129-161 | For a file cut to any length the whole view is determined: empty within the header, otherwise name, epoch, generation and status as written and exactly the workers and leases of the complete entries, with counts and metrics only if they are inside |
| `WalTheorems.NameShown` | webui/server.py:107-110 | The cluster name is shown unchanged, cut to 63 bytes |
| `WalTheorems.RecordLayout` | master/src/cluster_state.c:61-71 | The image is 4488 bytes long, with name, epoch, generation, status, both counts and all metrics at the offsets of the padded C record |
| `WalTheorems.WorkerLayout` | master/src/cluster_state.c:39-44 | Worker i of the record stands at byte 88 + 40 i, field by field |
| `WalTheorems.LeaseLayout` | master/src/cluster_state.c:46-51 | Lease i of the record stands at byte 1376 + 24 i, field by field |
| `WalTheorems.LittleEndian` | master/src/cluster_state.c:122-135 | A 32-bit word is written with its lowest byte first |
| `WalTheorems.UnusedIsZeroBytes` | master/src/cluster_state.c:101-114 | An unused worker or lease slot is written as zero bytes |
| `WalTheorems.SignedWord` | webui/server.py:121 | The signed reading of a word is the unsigned one, or that minus 2^32, whichever is a signed 32-bit number |
| `WalTheorems.AnyFile` | webui/server.py:101-219 | For every file, whoever wrote it: below 84 bytes the empty view; otherwise the name ends at its first zero byte, and workers and leases are the complete nonzero entries, cut to the stored count if that is positive |
| `ClusterHistory.LeasesFollowReports` | master/src/cluster_state.c:217-247 | In every run each lease shows the status and progress of the last report on its chunk and as many retries as failures and timeouts were reported (modulo the counter's width); a reported chunk is missing only when the table is full |
| `MasterRecovery.Context.constructor` | master/src/recovery.c:80-89 | Empty tables, healthy |
| `MasterRecovery.Context.RegisterWorkerHeartbeat` | master/src/recovery.c:101-122 | Stamps the worker healthy, or adds it while there is room |
| `MasterRecovery.Context.SweepTimeouts` | master/src/recovery.c:124-182 | The two in-place loops equal judging every worker and lease on the starting state; the job counter and health follow |
| `MasterRecovery.Context.MarkUncertain` | master/src/recovery.c:137-143 | Exactly the active leases of the lost worker become uncertain, one job each |
| `MasterRecovery.Context.RequeueDue` | master/src/recovery.c:151-170 | Exactly the due leases are retired, and the counter falls by one each, stopping at zero |
| `MasterRecovery.Context.ProcessIncomingResult` | master/src/recovery.c:184-216 | Accepts iff the first lease with the id is open and the worker matches, and then closes it (as a law over runs: `AcceptedIff`) |
| `MasterRecovery.Context.InjectLease` | master/src/recovery.c:218-232 | Appends an active lease while there is room |
| `MasterRecoveryModel.AcceptedAtMostOnce` | master/src/recovery.c:184-216 | In every run at most one result is accepted per lease id, even with repeated ids |
| `MasterRecoveryModel.CommittedNeverRequeued` | master/src/recovery.c:150-210 | The slot whose result was committed is at no time of the run expired |
| `MasterRecoveryModel.NoRequeueAndCommit` | master/src/recovery.c:150-210 | With distinct lease ids no lease is both requeued and committed |
| `MasterRecoveryModel.NeverBothIffDistinct` | master/src/recovery.c:150-232 | For every list of ids that fits the table: in all runs from the start that hand out leases with these ids none is both committed and requeued, iff the ids are distinct |
| `MasterRecoveryModel.RepeatedLeaseIdCounterexample` | master/src/recovery.c:188-190 | For every list with a repeated id, a run from the start that commits and requeues it |
| `MasterRecoveryModel.SweepClearsJobs` | master/src/recovery.c:140-168 | The job counter is zero after a sweep whenever it did not exceed the uncertain leases before it |
| `MasterRecoveryModel.SweepResolves` | master/src/recovery.c:130-170 | After a sweep no lease is uncertain; an active lease survives iff it has time left and its worker did not miss its window in this sweep |
| `MasterRecoveryModel.HeartbeatRecorded` | master/src/recovery.c:101-122 | A heartbeat is recorded iff the worker is known or the table has room; nothing else changes |
| `MasterRecoveryModel.HeartbeatProtects` | master/src/recovery.c:130-170 | A worker heard of within the timeout stays healthy through a sweep, and its active leases stay active iff their own time has not run out |
| `MasterRecoveryModel.RunsAreValid` | master/src/recovery.c:101-232 | After every call of every run: no uncertain lease, no open recovery job, at most one retry per lease, unique workers |
| `MasterRecoveryModel.RetryLimitNeverBinds` | master/src/recovery.c:158-167 | The retry limit never decides: a lease taken off is requeued iff its policy allows retries |
| `MasterRecoveryLaws.LeasesAreInjected` | master/src/recovery.c:218-232 | In every run the k-th lease is the k-th one injected, with its id, worker, expiry and policy |
| `MasterRecoveryLaws.AcceptedIff` | master/src/recovery.c:184-216 | In every run a result is accepted iff the first injection of its lease id named the reporting worker and that lease is still active or uncertain |
| `MasterRecoveryLaws.AcceptedWasAssigned` | master/src/recovery.c:199-210 | An accepted result comes from a worker to which an earlier call gave a lease of this id |
| `MasterRecoveryLaws.AssignedIsAccepted` | master/src/recovery.c:206-210 | The result of the named worker for an active first lease of the id is accepted and closes exactly that lease |
| `MasterRecoveryLaws.StrangerIsRejected` | master/src/recovery.c:199-204 | A result from a worker that no lease of the id names is rejected and changes nothing |
| `MasterRecoveryLaws.SweepJudges` | master/src/recovery.c:130-134 | A healthy worker stays healthy through a sweep iff its last heartbeat is at most the timeout old |
| `MasterRecoveryLaws.LateLosesLeases` | master/src/recovery.c:130-170 | A healthy worker heard of too long ago loses every active lease: retired if the policy forbids retries, otherwise requeued |
| `MasterRecoveryLaws.LostOnlyOnce` | master/src/recovery.c:132-170 | A lease of a worker that is already unhealthy is taken off only when its own time has run out |
| `MasterRecoveryLaws.SweepHealth` | master/src/recovery.c:172-179 | After a sweep the health is a warning iff some worker is unhealthy, and good iff none is |
| `MasterRecoveryLaws.OnlyHeartbeatsHeal` | master/src/recovery.c:101-122 | An unhealthy worker becomes healthy by its own heartbeat and by no other call |
| `MasterRecoveryLaws.RetryRule` | master/src/recovery.c:151-167 | A sweep counts one retry for each lease it takes off and expires it iff the policy allows retries and fewer than three were made; every other lease stays as it is |
| `MasterRecoveryLaws.SweepCountsJobs` | master/src/recovery.c:137-168 | The job counter after a sweep is the one before it plus the number of leases made uncertain minus the number taken off, and never negative |
| `WorkerRecovery.Context.constructor` | worker/src/recovery.c:36-43 | Empty, connected, not draining |
| `WorkerRecovery.Context.AcceptNewChunk` | worker/src/recovery.c:55-68 | Appends a running entry unless draining or full |
| `WorkerRecovery.Context.HandleRevocation` | worker/src/recovery.c:70-80 | Revokes the first entry of the lease, keeping partial output iff the policy allows |
| `WorkerRecovery.Context.SetDrain` | worker/src/recovery.c:50-53 | Only the draining flag changes |
| `WorkerRecovery.Context.OnDisconnect` | worker/src/recovery.c:82-85 | Only the connection flag changes |
| `WorkerRecovery.Context.ReconnectReconcile` | worker/src/recovery.c:87-122 | The in-place loop with removals equals the order-preserving map and filter of the original list, and terminates (what becomes of each entry: `RunningReconciled`, `EndedReconciled`) |
| `WorkerRecovery.Context.DropEntry` | worker/src/recovery.c:109-112 | Moving the entries down removes exactly one and keeps the order |
| `WorkerRecovery.Context.ClaimResult` | worker/src/recovery.c:124-136 | The checksum of the first entry of the lease iff it is completed or reconciled |
| `WorkerRecovery.Context.CompleteChunk` | worker/src/recovery.c:138-149 | Completes the first running entry of the lease with the cut checksum |
| `WorkerRecoveryModel.KeptExactly` | worker/src/recovery.c:92-121 | An entry is in the reconciled list iff some original entry becomes it (how: `RunningReconciled`, `EndedReconciled`) |
| `WorkerRecoveryModel.ReconcileIdempotent` | worker/src/recovery.c:87-122 | Reconciling twice against the same list is reconciling once |
| `WorkerRecoveryModel.OnlyAuthoritativeClaimable` | worker/src/recovery.c:103-136 | After reconciliation only authoritative leases are claimable and every other entry is revoked |
| `WorkerRecoveryModel.RevocationIsFinal` | worker/src/recovery.c:55-149 | Once the first entry of a lease is revoked, it is never evicted and no claim on the lease succeeds in any continuation |
| `WorkerRecoveryModel.ClaimSurvivesIff` | worker/src/recovery.c:55-149 | A claimable result stays claimable with the same checksum through a call iff the call neither revokes the lease nor reconciles without it |
| `WorkerRecoveryModel.CompleteThenClaim` | worker/src/recovery.c:124-149 | Completing a running lease and claiming it yields the given checksum, or its first 63 characters if it is longer |
| `WorkerRecoveryModel.RunsAreValid` | worker/src/recovery.c:55-122 | In every run partial output is preserved exactly for revoked entries whose policy does not discard it |
| `WorkerRecoveryModel.RevokedNeverFreed` | worker/src/recovery.c:55-149 | Between any two times of any run the number of revoked entries does not fall |
| `WorkerRecoveryModel.ExhaustionIsFinal` | worker/src/recovery.c:58-121 | Once revoked entries fill the table no chunk is accepted in any continuation |
| `WorkerRecoveryModel.CanServeIffNotExhausted` | worker/src/recovery.c:55-149 | From any state some continuation lets the worker accept a chunk again iff its table is not used up by revoked entries |
| `WorkerRecoveryModel.ExhaustionIsReached` | worker/src/recovery.c:55-80 | A run from the start that fills the table with revoked entries |
| `WorkerRecoveryLaws.RunningReconciled` | worker/src/recovery.c:103-121 | Reconciliation leaves the running entry of an authoritative lease as it is; of any other it revokes it, keeping partial output iff the policy does not discard it |
| `WorkerRecoveryLaws.EndedReconciled` | worker/src/recovery.c:94-120 | Revoked entries stay as they are; the finished entry of an authoritative lease becomes reconciled |
| `WorkerRecoveryLaws.WorkResumes` | worker/src/recovery.c:87-149 | A running lease that the master confirms can be completed after the reconnect, and its result claimed |
| `WorkerRecoveryLaws.Accepted` | worker/src/recovery.c:55-68 | A chunk under a new lease is accepted iff the worker is not draining and holds fewer than 16; then its entry is running with the given fields and nothing is claimable yet, otherwise nothing changes |
| `WorkerRecoveryLaws.AcceptCompleteClaim` | worker/src/recovery.c:55-149 | Accept, complete and claim yields the checksum; revoked in between, it yields nothing |
| `WorkerRecoveryLaws.RevokedEntry` | worker/src/recovery.c:70-80 | Whatever its state was, a revoked entry is revoked, with partial output kept iff the policy does not discard it |
| `WorkerRecoveryLaws.OtherLeaseUntouched` | worker/src/recovery.c:50-149 | No call but a reconciliation changes the entry of a lease it does not name |
| `WorkerRecoveryLaws.FlagsFollowCalls` | worker/src/recovery.c:50-89 | In every run the worker drains iff it was last told to, and is connected iff no disconnect came after the last reconnect |
| `Executor.Totals.ReserveLocalResources` | worker/src/executor.c:127-141 | Reserves iff both wrapped sums are within capacity, and then adds both demands |
| `Executor.Totals.ReleaseLocalResources` | worker/src/executor.c:143-150 | Subtracts each demand that is covered |
| `Executor.Totals.PollChild` | worker/src/executor.c:238-292 | The polling loop ends with the first round that sees the cancel flag, the timeout or the end of the child, and leaves the outcome of that round; each earlier look with output has raised the progress by one report |
| `Executor.Totals.ExecutorRun` | worker/src/executor.c:173-303 | From the inputs alone: success iff validation, reservation, pipe and fork succeed and the first deciding round of polling is a look, neither cancelled nor timed out, that finds exit code 0; all status reports with their percentages are determined likewise; the run is a run of the machine, and alone on a pool it leaves the totals as they were |
| `ExecutorModel.StepMovesTotals` | worker/src/executor.c:127-150 | Each step moves the totals by exactly what the run starts or stops holding, and never beyond capacity |
| `ExecutorModel.InterleavingsAreSound` | worker/src/executor.c:101-303 | For every interleaving of any number of runs the totals equal the demands of the runs between reserve and release and stay within capacity; each run reserves and releases at most once |
| `ExecutorModel.AllEndedIsIdle` | worker/src/executor.c:190-302 | When all runs have ended both totals are zero and every run released exactly as often as it reserved |
| `ExecutorModel.SafeIffRoomy` | worker/src/executor.c:130-131 | The totals are right in all interleavings iff twice the capacity fits the counters; otherwise two runs wrap the sum |
| `ExecutorModel.HostIsRoomy` | worker/src/executor.c:90-95 | The reported host capacity, eight cores and 16 GiB, is on the safe side of that condition |
| `ExecutorModel.InterleavingsReport` | worker/src/executor.c:180-300 | Every run's status reports follow the documented order with percentages that never fall |
| `ExecutorModel.ForkFailedIff` | worker/src/executor.c:209-215 | In every interleaving a run has ended in a failed fork iff one of the moves was that run's fork with a failing outcome |
| `ExecutorModel.OutcomeReportedIff` | worker/src/executor.c:209-215 | An ended run's last report is its outcome iff none of the moves was its failing fork; success iff the last report is a completion |
| `ExecutorOutcome.EndedRunOutcome` | worker/src/executor.c:238-302 | In every interleaving, for every ended run: it succeeded iff the move that ended its polling was a look, not cancelled and within the timeout, that found exit code 0; its reports are the start, one progress report per look with output, and the outcome of that move; without such a move it failed before polling |
| `ExecutorOutcome.InterleavingsAccount` | worker/src/executor.c:173-303 | In every interleaving and at every time, a run's reports, percentage and outcome are accounted for by the polling moves made for it so far |
| `ExecutorOutcome.FirstDeciding` | worker/src/executor.c:239-279 | The first round from i on that is cancelled, timed out or finds the child ended; no round before it is |
| `ExecutorOutcome.PollAccount` | worker/src/executor.c:239-292 | One round of polling: cancelled before timed out before looked at; output adds a progress report, exit code 0 completes at 100 percent, any other end fails |
| `ExecutorModel.UnreportedFailure` | worker/src/executor.c:187-215 | For every assignment the host can take, the run that ends in a failed fork with everything released and 'started' as its last report |

## Left out

- TickIsMaximal: states a sufficient condition for one given tick; when a later lease has run out, whether the chunk is served depends on all demands and workers, and `MaximalityGuaranteedIff` is exact about what the queue and leases alone decide.
- ExecutorRun: is one run without interference; interleavings with other runs are the subject of `ExecutorModel`. The child's side of the fork, the pipe's contents and the integrity hash are not modelled.
- RecalculateJobProgress: progress is a real number instead of a float, and the hash is kept as a number instead of its hexadecimal text.
- Best: scores are real numbers; floating-point rounding, the overflow of `atoi` and bytes behind the terminator of a worker id shorter than seven characters are not modelled.
- GenerateChunkGraph: of a plan function supplied from outside only its result for each workload is modelled; the hash of the workload's name is a parameter.
- ParseWal: rounding to gigabytes and percent, the UTF-8 decoding of the name and the reading time are not modelled; enumeration values without a name are kept as numbers.
- ProcessIncomingResult: the result hash, which is only printed, is not modelled; nor are the status texts that go with the health summary.
- `cluster_state_recover_from_wal`: copies the file back over the master record; it would only add the inverse of a memory copy.
- Update in place of structures nested in tables (a job's chunks) is modelled as replacing the table entry.
- `master/src/router.c`, `worker/src/transport.c`, `common/src/zmq_*.c` and both event loops: network plumbing.
- `master/src/registry.c`: its snapshot ring repeats the one of the cluster state.
- `worker/src/worker_state.c`, `worker/src/discovery.c`, `worker/src/resource_monitor.c`, the agent, the UI, the command line tools, configuration and logging: small tables, probes and presentation that would only add easy members.
