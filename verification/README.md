# Verified models of the labs' protocols

Dafny models of twelve of the repository's protocol simulators, with proofs of what each is there to
demonstrate, for all inputs, all interleavings and all runs unless a condition is stated.
`dafny verify dfyconfig.toml` verifies the whole project.

Each lab has a model of its state as values (`*Model.dfy`), the program's own loops and objects proved
to compute it (`ShardCluster`, `PipelineObject`, `RetrySimulator`, `BatchPlanner`, `BrokerObject`,
`OutboxObject`, `FailoverStability`, `RepairController`, `AdmissionController`, `TelemetryIngest`, the
classes in `CacheModel` and `LeaseModel`), and theorems about runs of it.

| Files | Lab |
|---|---|
| `Shard*` | Online shard migration: snapshot copy, log catch-up, cutover and cleanup behind epoch-fenced routes |
| `Pipeline*` | Event stream with bounded queues, routers, workers, retries and dead letters |
| `Retry*` | Retries in every layer of a call chain, as one flat loop |
| `Batch*` | Rollout batches under a size cap and a failure-domain cap |
| `Broker*` | Queue with leases, receipts, dead letters and strict groups; idempotent consumer |
| `Outbox*` | Transactional outbox and inbox over two databases |
| `Failover*` | Disaster-recovery state machine over two regions |
| `Repair*` | Node-repair controller |
| `Admission*`, `Telemetry*` | Priority admission and telemetry intake; `Priorities` and `Reports` hold what they share |
| `Cache*` | Cache entry with a version fence |
| `Lease*` | Leases with fencing tokens |
| `Counting`, `Sorting`, `Results` | Arithmetic by counting; stable insertion sort; optional values and errors |

## How to read the models

- Runs. A run is a sequence of operations of any kind in any order; `Run` or `At` is the state after it.
  Operations that raise or cannot happen change nothing. In the pipeline an action is what one coroutine
  does between two awaits; in the outbox a step is one committed transaction of one of any number of
  relays and consumers, each holding rows it read earlier and each able to crash between any two steps.
- Callers' duties in the shard lab. The code does not enforce three conditions on which safety rests, and
  the model names them: no write to a shard between the last catch-up and the cutover (`Quiet`), no new
  migration of a shard before the last one is cleaned up (`Allowed`), and `set_owner` only before the
  first write (`Fresh`). Runs that keep all three are called disciplined. `CutoverExact` proves the first
  necessary. For the other two, `BeginExact` and `SetOwnerSafeExact` say exactly which single step out of
  turn is safe in every disciplined future: a new migration unless it goes to the other end of a live one,
  and a reassignment by hand if the two nodes agree on the shard and no clean-up is pending at the new owner.
  `PrudentRefinement` allows any number of such steps, each after a test on the state it finds; for a
  reassignment that test also asks for a higher epoch.
- Where the pipeline can hang. With a bounded work queue all workers may wait to put a retry into it while
  only workers empty it. `WedgeExact` says for which configurations this can happen, `WedgeWithin` with how many events, `WedgedForever` that
  it is for ever, `OnlyWedgesHang` that nothing else blocks a run, and `SchedulesEnd` that no schedule goes
  on for ever without producing events; so once the producer has finished, run() returns or wedges, and
  with an unbounded work queue or without retries it returns (`RunReturns`).
- Where the code does less than its documentation says. The node-repair lab states that repair removes
  capacity only while the projected healthy fleet stays above policy
  (labs/kubernetes/01-node-repair-state-machine/README.md:18). The controller projects each removal
  against the fleet as it was at the start of the cycle and does not project restarts at all, so two
  removals, or one restart, can leave less than the policy asks for. The model follows the code:
  `CapacityCanRunOut` and `RestartTakesAll` are the cases, the latter under every policy. `CapacityExact`
  says exactly when a cycle keeps the promise: what goes is a sum over the fleet that can be computed
  beforehand, by counting the candidates ahead of each (`RepairSelection`). `CapacityWithRoom`,
  `CapacityWithoutRoom`, `GateKeepsCapacity` and `OneSlotKeepsCapacity` are settings in which it is simpler.
  Restarts do not respect the limits on concurrent repairs, either, though nodes being verified count as
  repairs: `RepairsExact`.
- Ids. Ids, tenants, zones, values and other names that the programs only compare and order are integers
  in the batch, broker, outbox, repair, admission, telemetry, cache and lease models; the shard and
  pipeline models use strings. Receipt `receipt-n` is the number n. Python's unbounded integers are
  Dafny's, floats are reals.
- Duplicate ids. `Admit` and `Ingest` report through a dictionary by id, in which the last decision
  processed wins (`DecidedByAhead`). The other theorems are about the decision made on each request or
  item by itself (`Own`), which is what limits and usage rest on, and need no distinct ids.
- Randomness and hashing. SHA-256 partitioning is an arbitrary function of the key, reduced modulo the
  number of shards; failures and jitter in the retry lab are two arbitrary streams; transient failures in
  the pipeline and fresh event ids in the outbox are chosen freely.
- Databases. Tables are maps and sequences, a transaction is one step. The order in which the outbox
  query lists pending rows depends on the clock and is a parameter, any order at all.

## Model

| member | source | states |
|---|---|---|
| ShardTheorems.Refinement | labs/distributed-systems/05-shard-rebalancing/shard_rebalance_demo.py:217-356 | After any disciplined run, with any number of migrations interleaved and routes of any age, reading a key gives the last accepted write to it, as a plain map would |
| ShardTheorems.LogIsPlainMap | labs/distributed-systems/05-shard-rebalancing/shard_rebalance_demo.py:247-250 | The log of any run, disciplined or not, records exactly the accepted writes |
| ShardRun.InvRun | labs/distributed-systems/05-shard-rebalancing/shard_rebalance_demo.py:259-351 | Every disciplined run keeps: reads are last writes, targets agree with the log up to the replay point, one live migration a shard, records only at the owner and the other end of a live migration |
| ShardTheorems.EpochsGrow | labs/distributed-systems/05-shard-rebalancing/shard_rebalance_demo.py:335-339 | Epochs of a shard never fall, stay exactly while no cutover of it goes through, and an epoch has one owner |
| ShardTheorems.SnapshotValidity | labs/distributed-systems/05-shard-rebalancing/shard_rebalance_demo.py:211-245 | A route snapshot is honoured for a shard exactly until its next cutover and refused for ever after; a refused write changes nothing |
| ShardTheorems.CatchUpAgrees | labs/distributed-systems/05-shard-rebalancing/shard_rebalance_demo.py:285-310 | After catch-up both ends agree on every key of the shard, no other record of any node has changed, the count is the number of writes to the shard since the replay point, and a second call replays none |
| ShardTheorems.CutoverExact | labs/distributed-systems/05-shard-rebalancing/shard_rebalance_demo.py:312-341 | After catch-up a cutover goes through, and preserves every read if and only if the shard has had no write since the last replay |
| ShardTheorems.CleanUpExact | labs/distributed-systems/05-shard-rebalancing/shard_rebalance_demo.py:343-351 | Cleaning up preserves every read if and only if the source no longer owns the shard or holds nothing of it |
| ShardTheorems.SetOwnerExact | labs/distributed-systems/05-shard-rebalancing/shard_rebalance_demo.py:199-209 | Reassigning a shard by hand preserves every read at that moment if and only if the two nodes hold the same records of it |
| ShardReassign.SetOwnerSafeExact | labs/distributed-systems/05-shard-rebalancing/shard_rebalance_demo.py:199-209 | No disciplined future of reassigning a shard by hand, in the middle of any migration, loses an acknowledged write if and only if the two nodes hold the same records of it and no migration past its cutover has the new owner as its source |
| ShardReassign.HandingBackLoses | labs/distributed-systems/05-shard-rebalancing/shard_rebalance_demo.py:199-209 | Handing a shard back to its source just after the cutover changes no read, and some disciplined future then loses a write |
| ShardReassign.CaughtUp | labs/distributed-systems/05-shard-rebalancing/shard_rebalance_demo.py:276-310 | If the target of a migration holds the same records of the shard as its owner, the migration has nothing left to copy or to replay |
| ShardBystander.FollowsStep | labs/distributed-systems/05-shard-rebalancing/shard_rebalance_demo.py:199-351 | A migration that cannot be cut over any more changes no read: every allowed step keeps the world and one without that migration in agreement everywhere but at nodes that no longer matter |
| ShardOverlap.BeginExact | labs/distributed-systems/05-shard-rebalancing/shard_rebalance_demo.py:259-274 | No disciplined future of starting a migration to a given target loses an acknowledged write if and only if the target is not the other end of a live migration of the shard: the target of one before its cutover, the source of one after it |
| ShardOverlap.Overlap | labs/distributed-systems/05-shard-rebalancing/shard_rebalance_demo.py:259-351 | A second migration to the other end of a live one has a disciplined future that loses an acknowledged write |
| ShardOverlap.RacingStep | labs/distributed-systems/05-shard-rebalancing/shard_rebalance_demo.py:259-351 | Two migrations of one shard to different targets race safely: whichever cuts over first decides, and the other can then do no harm |
| ShardOutOfTurn.PrudentRefinement | labs/distributed-systems/05-shard-rebalancing/shard_rebalance_demo.py:199-356 | Reads are those of a plain map of accepted writes also after runs with any number of live migrations of a shard at once and any number of reassignments by hand, if each step passes a test on the state it finds: a migration to a node that no live one can still touch, a quiet shard at cutover, a reassignment with a higher epoch to a node that agrees on the shard and that no live migration can still touch |
| ShardOutOfTurn.KeepsRun | labs/distributed-systems/05-shard-rebalancing/shard_rebalance_demo.py:199-351 | The invariant of those runs: reads are last writes, every record has been logged, every migration that can be cut over agrees with the log up to its replay point and has its target to itself, and no other has anything left to do at an owner |
| ShardOutOfTurn.DisciplinedIsPrudent | labs/distributed-systems/05-shard-rebalancing/shard_rebalance_demo.py:259-351 | Disciplined runs are among those runs |
| ShardModel.ReplayReachesLog | labs/distributed-systems/05-shard-rebalancing/shard_rebalance_demo.py:294-303 | Replaying the tail of the log turns agreement up to the replay point into agreement with the whole log, key by key |
| ShardModel.ReplayFrame | labs/distributed-systems/05-shard-rebalancing/shard_rebalance_demo.py:294-303 | Replaying leaves the target's records of other shards alone |
| ShardModel.ReplayCountIsShardWrites | labs/distributed-systems/05-shard-rebalancing/shard_rebalance_demo.py:294-310 | Moving the replay point while scanning skips nothing: the count is that of all writes to the shard since |
| ShardResults.WriteExact | labs/distributed-systems/05-shard-rebalancing/shard_rebalance_demo.py:217-257 | A write needs a route to a known node and, with fencing, the current one; then it has the next sequence number and record and log entry hold what was written where, and otherwise nothing changes |
| ShardResults.UnfencedWriteIsLost | labs/distributed-systems/05-shard-rebalancing/shard_rebalance_demo.py:217-257 | Without fencing a stale route to another node is accepted, and no reader of the owner ever sees the write |
| ShardResults.SetOwnerResult | labs/distributed-systems/05-shard-rebalancing/shard_rebalance_demo.py:199-209 | Which reassignments are refused, in which order, and the new route of the others |
| ShardResults.BeginResult | labs/distributed-systems/05-shard-rebalancing/shard_rebalance_demo.py:259-274 | Which migrations are refused, in which order, and the owner and epoch the others start from |
| ShardResults.PhasesInOrder | labs/distributed-systems/05-shard-rebalancing/shard_rebalance_demo.py:276-351 | Copy, catch-up and clean-up are refused out of their turn and otherwise lead to the next phase |
| ShardResults.CutoverResult | labs/distributed-systems/05-shard-rebalancing/shard_rebalance_demo.py:312-341 | After catch-up, or after the copy if that is waived, and from the route the migration started with, a cutover makes the target the owner with the next epoch; otherwise it is refused with the right error |
| ShardResults.EarlyCutoverExact | labs/distributed-systems/05-shard-rebalancing/shard_rebalance_demo.py:312-341 | A cutover right after the copy preserves every read if and only if the shard has been quiet since |
| ShardResults.CleanUpCounts | labs/distributed-systems/05-shard-rebalancing/shard_rebalance_demo.py:343-351 | The count is the number of keys of the shard at the source, which has none of them afterwards and all its other records |
| ShardCluster.Cluster.Create | labs/distributed-systems/05-shard-rebalancing/shard_rebalance_demo.py:176-194 | No nodes or no shards is refused; otherwise owners go round robin with epoch 1 and the log is empty |
| ShardCluster.Cluster.SetOwner | labs/distributed-systems/05-shard-rebalancing/shard_rebalance_demo.py:199-209 | The state after it and the errors for unknown nodes, shards and epochs that are not positive |
| ShardCluster.Cluster.SnapshotRoutes | labs/distributed-systems/05-shard-rebalancing/shard_rebalance_demo.py:211-215 | The routes are the shard map at this moment |
| ShardCluster.Cluster.Write | labs/distributed-systems/05-shard-rebalancing/shard_rebalance_demo.py:217-257 | The whole state after a write, fenced or not, and its result or error |
| ShardCluster.Cluster.BeginMigration | labs/distributed-systems/05-shard-rebalancing/shard_rebalance_demo.py:259-274 | A fresh migration from the current owner and epoch, or the error |
| ShardCluster.Cluster.CopySnapshot | labs/distributed-systems/05-shard-rebalancing/shard_rebalance_demo.py:276-283 | The loop copies exactly the shard's records and sets the replay point to the sequence |
| ShardCluster.Cluster.CatchUp | labs/distributed-systems/05-shard-rebalancing/shard_rebalance_demo.py:285-310 | The scanning loop, whose replay point moves as it goes, equals replaying every applicable log entry in order |
| ShardCluster.Cluster.Cutover | labs/distributed-systems/05-shard-rebalancing/shard_rebalance_demo.py:312-341 | The new owner and epoch, or which of the three errors, with and without catch-up required |
| ShardCluster.Cluster.CleanUp | labs/distributed-systems/05-shard-rebalancing/shard_rebalance_demo.py:343-351 | The loop deletes exactly the shard's records at the source and counts them |
| ShardCluster.Cluster.ReadAuthoritative | labs/distributed-systems/05-shard-rebalancing/shard_rebalance_demo.py:353-356 | The record of the key at the owner of its shard |
| ShardCluster.Cluster.ReadFrom | labs/distributed-systems/05-shard-rebalancing/shard_rebalance_demo.py:358-360 | The record at a named node, or an error for an unknown one |
| PipelineTheorems.AccountsBalance | tracks/aws/labs/03-event-stream-backpressure/pipeline.py:201-312 | In every interleaving: admitted = queued in shards + held by routers + routed; routed = queued work + in workers + processed + duplicates + dead letters; failures = retries + dead letters; inbox rows = those at the start + processed |
| PipelineTheorems.JoinsMeanQuiescence | tracks/aws/labs/03-event-stream-backpressure/pipeline.py:185-188 | When producer and joins have let run() go on, nothing is left anywhere, nothing can happen any more, and produced = processed + duplicates + dead letters |
| PipelineTheorems.EveryEventSettles | tracks/aws/labs/03-event-stream-backpressure/pipeline.py:274-312 | At the end every admission of an event has become one processing, one suppressed duplicate or one dead letter of that event, and it was processed at most once |
| PipelineTheorems.ExecutionBound | tracks/aws/labs/03-event-stream-backpressure/pipeline.py:301-312 | Workers execute an event at most max(1, max_attempts) times for each admission, and all events together likewise; only poison is dead-lettered early |
| PipelineTheorems.ShardsAreFifo | tracks/aws/labs/03-event-stream-backpressure/pipeline.py:246-263 | A shard hands over its own events in the order it admitted them |
| PipelineOutcomes.NewEventTakesEffect | tracks/aws/labs/03-event-stream-backpressure/pipeline.py:274-299 | An event that does not fail and whose id is new adds exactly its id to the inbox and one to the processed, and frees its worker |
| PipelineOutcomes.KnownEventIsDuplicate | tracks/aws/labs/03-event-stream-backpressure/pipeline.py:287-296 | One whose id is in the inbox counts as a duplicate and changes neither inbox nor dead letters |
| PipelineOutcomes.PoisonIsDeadLettered | tracks/aws/labs/03-event-stream-backpressure/pipeline.py:277-306 | An event with the configured key, unless that is empty, is dead-lettered at once as a permanent failure |
| PipelineOutcomes.FailureCostsAnAttempt | tracks/aws/labs/03-event-stream-backpressure/pipeline.py:282-312 | A transient failure leads to a retry with one more attempt while attempts are left, and to a dead letter otherwise |
| PipelineOutcomes.DuplicatesTookEffect | tracks/aws/labs/03-event-stream-backpressure/pipeline.py:287-296 | In every run, what has been suppressed as a duplicate is in the inbox, from the start or because it was processed |
| PipelineOutcomes.AdmittedIsAppliedOrDead | tracks/aws/labs/03-event-stream-backpressure/pipeline.py:185-188 | At the end every admitted event is in the inbox or dead-lettered |
| PipelineOutcomes.NothingFailsNothingIsLost | tracks/aws/labs/03-event-stream-backpressure/pipeline.py:274-312 | Without a poison key and without failures nothing is retried or dead-lettered, and in the end the inbox has gained exactly the events admitted |
| PipelineOutcomes.ProducedAsGiven | tracks/aws/labs/03-event-stream-backpressure/pipeline.py:208-250 | An event is produced as it is with no attempt made, and meets back-pressure exactly if the queue of its shard is at its bound |
| PipelineOutcomes.AdmittedInOrder | tracks/aws/labs/03-event-stream-backpressure/pipeline.py:246-253 | An event waits while the queue of its shard is full, and then joins its end and is counted for its shard |
| PipelineOutcomes.QueuesAreBounded | tracks/aws/labs/03-event-stream-backpressure/pipeline.py:160-166 | No queue ever holds more than its bound |
| PipelineProgress.WedgeExact | tracks/aws/labs/03-event-stream-backpressure/pipeline.py:301-312 | For every configuration and inbox: some interleaving wedges, all workers waiting to put a retry into the full work queue, if and only if the work queue is bounded and max_attempts exceeds one |
| PipelineProgress.WedgeWithin | tracks/aws/labs/03-event-stream-backpressure/pipeline.py:201-312 | With at most n events produced some interleaving wedges if and only if, in addition, n is at least the number of workers plus the size of the work queue |
| PipelineProgress.OnlyWedgesHang | tracks/aws/labs/03-event-stream-backpressure/pipeline.py:265-312 | An unfinished run can always go on unless it is wedged |
| PipelineProgress.WedgedForever | tracks/aws/labs/03-event-stream-backpressure/pipeline.py:308-312 | A wedged run never leaves that state and run() never returns |
| PipelineProgress.SchedulesEnd | tracks/aws/labs/03-event-stream-backpressure/pipeline.py:201-312 | A schedule of steps that each do something, n of them producing an event, has at most n * (3 * max(1, max_attempts) + 4) steps and the number of shards and five more |
| PipelineProgress.EffortFalls | tracks/aws/labs/03-event-stream-backpressure/pipeline.py:172-312 | Every step that does anything leaves strictly less to do, except producing another event |
| PipelineProgress.NoMoreProduced | tracks/aws/labs/03-event-stream-backpressure/pipeline.py:201-224 | Once the producer has finished, nothing more is produced in any continuation |
| PipelineProgress.RunReturns | tracks/aws/labs/03-event-stream-backpressure/pipeline.py:172-199 | With an unbounded work queue or without retries, a schedule that cannot go on has ended with run() past its joins |
| PipelineProgress.CanEnd | tracks/aws/labs/03-event-stream-backpressure/pipeline.py:172-312 | From every point of every run some continuation ends it or wedges it |
| PipelineRuns.InvRun | tracks/aws/labs/03-event-stream-backpressure/pipeline.py:172-312 | The invariants of all interleavings, weighted by any choice of events |
| PipelineRuns.QuiescingStep | tracks/aws/labs/03-event-stream-backpressure/pipeline.py:255-272 | Once a queue has been joined with the producers before it finished, it stays empty: joins happen in a sound order because a retry is put back before the old item is marked done |
| PipelineObject.Inbox.ApplyOnce | tracks/aws/labs/03-event-stream-backpressure/pipeline.py:119-129 | Inserts an id once and says whether it was new |
| PipelineObject.Pipeline.constructor | tracks/aws/labs/03-event-stream-backpressure/pipeline.py:157-170 | Empty queues, idle coroutines and counters at zero |
| PipelineObject.Pipeline.ProduceEvent | tracks/aws/labs/03-event-stream-backpressure/pipeline.py:209-212 | Counts the event, and backpressure if its shard queue is full |
| PipelineObject.Pipeline.AdmitEvent | tracks/aws/labs/03-event-stream-backpressure/pipeline.py:246-253 | Waits for room in the shard queue, then puts and counts |
| PipelineObject.Pipeline.RouterTake | tracks/aws/labs/03-event-stream-backpressure/pipeline.py:257-258 | Takes the head of its shard queue if there is one |
| PipelineObject.Pipeline.RouterForward | tracks/aws/labs/03-event-stream-backpressure/pipeline.py:259-263 | Waits for room in the work queue, then puts, counts and marks the shard item done |
| PipelineObject.Pipeline.WorkerTake | tracks/aws/labs/03-event-stream-backpressure/pipeline.py:267-268 | Takes the head of the work queue if there is one |
| PipelineObject.Pipeline.WorkerProcess | tracks/aws/labs/03-event-stream-backpressure/pipeline.py:274-312 | Dead-letters, schedules a retry, suppresses a duplicate or applies the effect, with all counters |
| PipelineObject.Pipeline.WorkerPutBack | tracks/aws/labs/03-event-stream-backpressure/pipeline.py:312-312 | Waits for room, puts the retry back and only then marks the old item done |
| PipelineObject.Pipeline.RunProceeds | tracks/aws/labs/03-event-stream-backpressure/pipeline.py:185-188 | run() waits for the producer, for every shard queue, for the work queue, and stops |
| PipelineObject.Drive | tracks/aws/labs/03-event-stream-backpressure/pipeline.py:172-199 | Any schedule of the coroutines ends in the state of the specification |
| RetrySimulator.Simulation.Call | labs/distributed-systems/01-retry-amplification/retry_simulator.py:104-125 | The recursion of retries in retries equals the flat loop: attempts, success, per-layer counters, attempt times, completion and stream positions |
| RetrySimulator.Simulation.CallRetrying | labs/distributed-systems/01-retry-amplification/retry_simulator.py:113-125 | The same for the loop of a layer over its own attempts |
| RetrySimulator.Simulation.Backoff | labs/distributed-systems/01-retry-amplification/retry_simulator.py:88-95 | The wait, and one jitter draw exactly if there is jitter |
| RetrySimulator.Simulation.SimulateRequest | labs/distributed-systems/01-retry-amplification/retry_simulator.py:98-133 | A request is the flat loop from zeroed counters; it fails only for an unsupported mode that is looked at |
| RetrySimulator.Run | labs/distributed-systems/01-retry-amplification/retry_simulator.py:155-179 | Which configurations are refused, and that totals and successes are those of the flat loop over consecutive requests |
| RetryTheorems.RequestCost | labs/distributed-systems/01-retry-amplification/retry_simulator.py:104-125 | A request succeeds exactly if one of the next N outcomes does, makes min(first success, N) attempts, causes ceil(A / N_i) calls at layer i, and N_i divides N |
| RetryTheorems.WorstCaseByMode | labs/distributed-systems/01-retry-amplification/retry_simulator.py:78-85 | N is 1 without retries, r + 1 at the edge, and (r + 1) to the number of layers when all retry |
| RetryTheorems.PredictionMatches | labs/reliability/03-overload-blast-radius/overload_lab.py:189-201 | The overload lab's product over layers is the retry lab's N |
| RetryTheorems.LayeredRetryAttempts | labs/reliability/03-overload-blast-radius/overload_lab.py:189-201 | The product of retries + 1, or an error exactly if a count is negative |
| RetryTheorems.Amplification | labs/distributed-systems/01-retry-amplification/retry_simulator.py:170-179 | r requests cost between r and r * N attempts, and exactly r * N with no success if every attempt fails |
| RetryTheorems.FailuresAreExpensive | labs/distributed-systems/01-retry-amplification/retry_simulator.py:170-179 | Every failed request has used up N attempts |
| RetryTheorems.BackoffIsCarry | labs/distributed-systems/01-retry-amplification/retry_simulator.py:116-123 | The backoff before attempt t is numbered by the lowest non-zero digit of t in the mixed radix of the layers |
| RetryTheorems.CarryIsRetryNumber | labs/distributed-systems/01-retry-amplification/retry_simulator.py:116-123 | That digit is the only one of its kind |
| RetryTheorems.GapExact | labs/distributed-systems/01-retry-amplification/retry_simulator.py:88-123 | In every mode the gap before attempt t, beyond one latency, is the base doubled once less than that digit says, capped at the maximum; with jitter it is a draw from zero to that limit |
| RetryTheorems.CompletionBounds | labs/distributed-systems/01-retry-amplification/retry_simulator.py:88-125 | A attempts take A latencies and A - 1 backoffs, each between the shortest and the longest the configuration allows, of whatever sign |
| RetryTheorems.RequestTime | labs/distributed-systems/01-retry-amplification/retry_simulator.py:98-133 | The same bounds for the completion time of a simulated request; if backoffs are not negative, at most the maximum backoff each, and without jitter at least the first one each |
| RetryTheorems.SensibleBounds | labs/distributed-systems/01-retry-amplification/retry_simulator.py:88-95 | If base and maximum backoff are not negative, the shortest backoff is the first, or nothing with jitter, and the longest is the maximum |
| RetryTheorems.EdgeSchedule | labs/distributed-systems/01-retry-amplification/retry_simulator.py:88-95 | At the edge without jitter the schedule is capped exponential backoff |
| RetryModel.AttemptsExact | labs/distributed-systems/01-retry-amplification/retry_simulator.py:116-125 | The flat loop stops at the first success or at the cap, and succeeds if and only if there is a success within the cap |
| RetryModel.TimesBelow | labs/distributed-systems/01-retry-amplification/retry_simulator.py:113-123 | A layer's own schedule, placed where its try starts, is the schedule of the layer above |
| RetrySimulator.LeafTotals | labs/distributed-systems/01-retry-amplification/retry_simulator.py:170-179 | Calls of the last layer are the dependency attempts |
| BatchTheorems.TwiceTheBest | labs/platform-engineering/05-fleet-rollout-planner/plan_rollout.py:278-301 | The plan has less than twice as many batches as any batching of the ring's clusters within the caps |
| BatchTheorems.RingTwiceTheBest | labs/platform-engineering/05-fleet-rollout-planner/plan_rollout.py:261-303 | The same for a ring of the fleet as grouped and sorted |
| BatchTheorems.RingBound | labs/platform-engineering/05-fleet-rollout-planner/plan_rollout.py:278-301 | At most n / size batches plus the largest ceil(n_d / cap) over failure domains |
| BatchTheorems.BestWithOneCap | labs/platform-engineering/05-fleet-rollout-planner/plan_rollout.py:278-301 | If no failure domain exceeds its cap, or the clusters do not exceed the size cap, no batching within the caps has fewer batches than the plan |
| BatchTheorems.RingBestWithOneCap | labs/platform-engineering/05-fleet-rollout-planner/plan_rollout.py:261-303 | The same for a ring of the fleet as grouped and sorted |
| BatchOptimum.OptimumExact | labs/platform-engineering/05-fleet-rollout-planner/plan_rollout.py:278-301 | k batches within the caps can hold the clusters if and only if k is at least the larger of ceil(n / size) and the largest ceil(n_d / cap) over failure domains |
| BatchOptimum.PlanWithinTwice | labs/platform-engineering/05-fleet-rollout-planner/plan_rollout.py:261-303 | The plan of a ring has at least as many batches as the best and less than twice as many |
| BatchOptimum.TwiceIsTight | labs/platform-engineering/05-fleet-rollout-planner/plan_rollout.py:261-303 | For every m there is a ring for which m batches would do and the plan has 2 m - 1 |
| BatchOptimum.NotAlwaysBest | labs/platform-engineering/05-fleet-rollout-planner/plan_rollout.py:278-301 | The smallest such case: four clusters planned in three batches, and two batches within the caps that hold the same clusters |
| BatchTheorems.ExactPartition | labs/platform-engineering/05-fleet-rollout-planner/plan_rollout.py:261-303 | With every ring known and listed once, each eligible cluster is planned exactly as often as it is eligible |
| BatchTheorems.RingByRing | labs/platform-engineering/05-fleet-rollout-planner/plan_rollout.py:272-301 | The plan is the rings in the given order; within a ring batches are numbered from one, not empty, of the ring and within both caps |
| BatchTheorems.PlanErrors | labs/platform-engineering/05-fleet-rollout-planner/plan_rollout.py:293-297 | Planning fails exactly if a ring with clusters meets a cap that is not positive |
| BatchTheorems.RingPlanned | labs/platform-engineering/05-fleet-rollout-planner/plan_rollout.py:278-301 | A ring can be planned exactly if it is empty or both caps are positive, and its batches are then sound |
| BatchTheorems.RingKeeps | labs/platform-engineering/05-fleet-rollout-planner/plan_rollout.py:278-301 | A ring's batches hold exactly its clusters, by domain and one by one |
| BatchTheorems.ScanMaximal | labs/platform-engineering/05-fleet-rollout-planner/plan_rollout.py:283-291 | A batch that is not full leaves clusters of a domain only if it has taken all it may from that domain |
| BatchTheorems.ScanCaps | labs/platform-engineering/05-fleet-rollout-planner/plan_rollout.py:283-291 | A batch respects the size and the failure-domain cap |
| BatchModel.SortedOrdered | labs/platform-engineering/05-fleet-rollout-planner/plan_rollout.py:273-276 | A ring is planned in order of failure domain and id |
| BatchModel.SortedByDomainAndId | labs/platform-engineering/05-fleet-rollout-planner/plan_rollout.py:273-276 | That is: by failure domain, and within one by cluster id |
| BatchModel.SortedTally | labs/platform-engineering/05-fleet-rollout-planner/plan_rollout.py:273-276 | Sorting keeps what there is |
| BatchPlanner.CreateBatches | labs/platform-engineering/05-fleet-rollout-planner/plan_rollout.py:261-303 | The nested loops compute the plan, or the error |
| BatchPlanner.SelectBatch | labs/platform-engineering/05-fleet-rollout-planner/plan_rollout.py:279-291 | The inner loop with its dictionary of counts splits the remaining clusters as specified |
| BatchPlanner.PlanOneRing | labs/platform-engineering/05-fleet-rollout-planner/plan_rollout.py:277-301 | The loop over batches of a ring |
| BatchPlanner.GroupByRing | labs/platform-engineering/05-fleet-rollout-planner/plan_rollout.py:267-269 | The dictionary lists each ring's clusters in order |
| BrokerTheorems.Conservation | labs/distributed-systems/06-queue-redelivery/queue_delivery_demo.py:71-151 | In every run, sequence numbers 1 to n are split between queue, dead letters and acknowledged messages, each exactly once |
| BrokerTheorems.TrafficDrains | labs/distributed-systems/06-queue-redelivery/queue_delivery_demo.py:90-128 | Deliveries, dead letters and polls still to come never exceed n * (max + 1) for n messages enqueued |
| BrokerDraining.Drained | labs/distributed-systems/06-queue-redelivery/queue_delivery_demo.py:90-128 | After any run, as many polls past every lease as that budget has units left empty the queue: all of it is then dead-lettered, and every delivery it was good for has been made |
| BrokerDraining.PollWorks | labs/distributed-systems/06-queue-redelivery/queue_delivery_demo.py:90-128 | A poll past every lease uses up some of that budget unless the queue is empty |
| BrokerTheorems.DrainsReceive | labs/distributed-systems/06-queue-redelivery/queue_delivery_demo.py:90-128 | Every poll uses up exactly one unit of that budget for each message it delivers or dead-letters |
| BrokerReceipts.DeliveriesBounded | labs/distributed-systems/06-queue-redelivery/queue_delivery_demo.py:108-112 | A message is delivered at most max times; a dead letter exactly max times, and it has count max + 1 and no receipt |
| BrokerReceipts.OnlyTheLatest | labs/distributed-systems/06-queue-redelivery/queue_delivery_demo.py:114-117 | A receipt is held by at most one message, the one it was handed out for, and only while that delivery is its latest |
| BrokerReceipts.Superseded | labs/distributed-systems/06-queue-redelivery/queue_delivery_demo.py:108-117 | A receipt is void once its message has been delivered again or dead-lettered |
| BrokerReceipts.UsedUp | labs/distributed-systems/06-queue-redelivery/queue_delivery_demo.py:130-151 | A receipt acknowledged or refused is void |
| BrokerReceipts.VoidForever | labs/distributed-systems/06-queue-redelivery/queue_delivery_demo.py:130-151 | A void receipt stays void in every continuation of the run: no acknowledgement with it succeeds |
| BrokerReceipts.RecordedRun | labs/distributed-systems/06-queue-redelivery/queue_delivery_demo.py:71-198 | The invariant of every run on which these rest: counts are deliveries, receipts are those of latest deliveries |
| BrokerLeases.HiddenWhileLeased | labs/distributed-systems/06-queue-redelivery/queue_delivery_demo.py:114-126 | In every run a message that holds a receipt is invisible exactly until the end of the lease handed out with it |
| BrokerLeases.LeaseGranted | labs/distributed-systems/06-queue-redelivery/queue_delivery_demo.py:114-127 | A poll delivers one message at most, with the next receipt and a lease for the time asked for |
| BrokerLeases.DeliveredHolds | labs/distributed-systems/06-queue-redelivery/queue_delivery_demo.py:114-118 | The message just delivered holds that receipt |
| BrokerLeases.LeaseProtects | labs/distributed-systems/06-queue-redelivery/queue_delivery_demo.py:99-118 | Until its lease ends, or somebody refuses its receipt, a delivered message is not delivered again by any polls, whatever else happens |
| BrokerLeases.NackDelays | labs/distributed-systems/06-queue-redelivery/queue_delivery_demo.py:137-151 | A refused message is visible again exactly when the delay is over, holds no receipt, and is otherwise as it was |
| BrokerLeases.NackHides | labs/distributed-systems/06-queue-redelivery/queue_delivery_demo.py:137-151 | It is not delivered by any polls before that |
| BrokerLeases.EnqueuedAsGiven | labs/distributed-systems/06-queue-redelivery/queue_delivery_demo.py:71-88 | An enqueue whose id no queued message has appends the message with the next sequence number; any other changes nothing |
| BrokerLeases.DeliveredAsEnqueued | labs/distributed-systems/06-queue-redelivery/queue_delivery_demo.py:71-127 | In every continuation a message, its deliveries and its dead letter have the id, payload and group it was enqueued with |
| BrokerOrdering.GroupsInOrder | labs/distributed-systems/06-queue-redelivery/queue_delivery_demo.py:102-106 | Under strict ordering the deliveries of a group never go back in sequence |
| BrokerOrdering.HeadDelivered | labs/distributed-systems/06-queue-redelivery/queue_delivery_demo.py:90-128 | What is delivered is the first live message of its group at that moment, even after the same poll dead-lettered its predecessor |
| BrokerOrdering.OneInFlight | labs/distributed-systems/06-queue-redelivery/queue_delivery_demo.py:153-158 | A message behind another of its group has never been delivered and has no receipt |
| BrokerOrdering.NothingToDeliver | labs/distributed-systems/06-queue-redelivery/queue_delivery_demo.py:99-128 | A poll that returns nothing leaves every message invisible or, under strict ordering, behind another of its group |
| BrokerOrdering.EffectsExact | labs/distributed-systems/06-queue-redelivery/queue_delivery_demo.py:167-198 | An id has one effect for each plain processing and one more if it was ever processed idempotently, under any crashes and late acknowledgements |
| BrokerOrdering.ExactlyOnce | labs/distributed-systems/06-queue-redelivery/queue_delivery_demo.py:167-198 | A consumer that is always idempotent has exactly one effect per id it has processed |
| BrokerRuns.OrderRun | labs/distributed-systems/06-queue-redelivery/queue_delivery_demo.py:71-151 | Every run keeps ids, sequences and receipts of live messages distinct and in order |
| BrokerObject.Broker.Create | labs/distributed-systems/06-queue-redelivery/queue_delivery_demo.py:56-69 | An empty broker, or an error for a limit that is not positive |
| BrokerObject.Broker.Enqueue | labs/distributed-systems/06-queue-redelivery/queue_delivery_demo.py:71-88 | Appends with the next sequence number, or refuses a live id |
| BrokerObject.Broker.Receive | labs/distributed-systems/06-queue-redelivery/queue_delivery_demo.py:90-128 | The scan over a snapshot that removes from the list it works on equals the recursive scan, with its delivery |
| BrokerObject.Broker.IsBlocked | labs/distributed-systems/06-queue-redelivery/queue_delivery_demo.py:153-158 | Whether an earlier message of the group is in the queue |
| BrokerObject.Broker.Ack | labs/distributed-systems/06-queue-redelivery/queue_delivery_demo.py:130-135 | Removes the message that holds the receipt and says whether there was one |
| BrokerObject.Broker.Nack | labs/distributed-systems/06-queue-redelivery/queue_delivery_demo.py:137-151 | Takes the receipt back and delays the message, or refuses a negative delay |
| BrokerObject.Consumer.Process | labs/distributed-systems/06-queue-redelivery/queue_delivery_demo.py:167-198 | Inbox, effects, acknowledgement and result, with and without a crash |
| OutboxTheorems.Recovery | labs/distributed-systems/02-transactional-outbox/outbox_lab.py:169-323 | From whatever any run with crashes has left, one relay and one consumer that are not interrupted and have large enough limits fulfill every order |
| OutboxTheorems.OneEventPerOrder | labs/distributed-systems/02-transactional-outbox/outbox_lab.py:131-148 | At any time between commits every order has exactly one event, with the order's content |
| OutboxTheorems.MarksAreTrue | labs/distributed-systems/02-transactional-outbox/outbox_lab.py:191-223 | At any time what is marked published has been delivered and what is marked consumed is in the inbox |
| OutboxTheorems.EffectivelyOnce | labs/distributed-systems/02-transactional-outbox/outbox_lab.py:249-288 | At any time no event has taken effect twice, the inbox holds exactly the effective events, and they match the fulfilled orders one to one |
| OutboxInvariants.InvRun | labs/distributed-systems/02-transactional-outbox/outbox_lab.py:115-323 | The invariant of every interleaving of relays and consumers with stale rows and crashes between any two commits |
| OutboxTheorems.RelayCompletes | labs/distributed-systems/02-transactional-outbox/outbox_lab.py:188-223 | An uninterrupted relay marks every row it read and keeps all invariants |
| OutboxTheorems.ConsumerCatchesUp | labs/distributed-systems/02-transactional-outbox/outbox_lab.py:291-323 | An uninterrupted consumer puts every delivered event into the inbox |
| OutboxContents.CreatedAsAsked | labs/distributed-systems/02-transactional-outbox/outbox_lab.py:115-151 | An order is created exactly if its amount is not negative and its id and that of its event are free; then order and unpublished event hold what was asked for, and nothing else changes |
| OutboxContents.SentAsOrdered | labs/distributed-systems/02-transactional-outbox/outbox_lab.py:115-229 | Ever after the order is as it was placed, its event describes it, and every delivery of the event carries that description |
| OutboxContents.PublishedInCopies | labs/distributed-systems/02-transactional-outbox/outbox_lab.py:191-214 | A publication adds as many unconsumed deliveries of the row as copies |
| OutboxContents.MarkedOnce | labs/distributed-systems/02-transactional-outbox/outbox_lab.py:191-223 | Marking a row changes that mark only |
| OutboxContents.FetchedInOrder | labs/distributed-systems/02-transactional-outbox/outbox_lab.py:232-246 | A consumer reads the first unconsumed deliveries in the order of arrival, as many as its limit allows |
| OutboxContents.ProcessedByName | labs/distributed-systems/02-transactional-outbox/outbox_lab.py:249-288 | A new event is recorded under the name of its consumer and fulfills its order; a known one changes no table |
| OutboxContents.ConsumedOnce | labs/distributed-systems/02-transactional-outbox/outbox_lab.py:291-323 | Marking a delivery consumed changes that mark only |
| OutboxContents.NothingLeftToConsume | labs/distributed-systems/02-transactional-outbox/outbox_lab.py:291-323 | A consumer without a limit that is not interrupted leaves nothing for the next |
| OutboxContents.ProcessedIsGain | labs/distributed-systems/02-transactional-outbox/outbox_lab.py:291-323 | The deliveries counted as processed are the events added to the inbox |
| OutboxContents.RelayedInCopies | labs/distributed-systems/02-transactional-outbox/outbox_lab.py:169-229 | A relay that is not interrupted adds as many deliveries as copies for each row |
| OutboxObject.Databases.CreateOrder | labs/distributed-systems/02-transactional-outbox/outbox_lab.py:115-151 | Order and outbox row together or neither, and the errors |
| OutboxObject.Databases.Relay | labs/distributed-systems/02-transactional-outbox/outbox_lab.py:169-229 | The loop of publications and marks, its crash after the first publication, and its result |
| OutboxObject.Databases.ProcessDelivery | labs/distributed-systems/02-transactional-outbox/outbox_lab.py:249-288 | Inbox and fulfillment together, or nothing for an event already in the inbox |
| OutboxObject.Databases.Consume | labs/distributed-systems/02-transactional-outbox/outbox_lab.py:291-323 | The loop over unconsumed deliveries, with exact counts of new and duplicate ones |
| FailoverSafety.SingleWriter | labs/reliability/02-disaster-recovery-state-machine/dr_failover.py:133-430 | In every run, whatever is observed, exactly one region writes; a recovered secondary has all traffic and writes, a restored primary likewise |
| FailoverSafety.StaleTokensRefused | labs/reliability/02-disaster-recovery-state-machine/dr_failover.py:125-130 | A token accepted before a promotion is refused by both regions at any time after it |
| FailoverSafety.NoSharedEpoch | labs/reliability/02-disaster-recovery-state-machine/dr_failover.py:125-130 | No token is accepted by the primary at one time and by the secondary at another |
| FailoverSafety.EpochsRise | labs/reliability/02-disaster-recovery-state-machine/dr_failover.py:253-275 | Between two points of a run the writer is the same with the same epoch, or has an epoch higher than any at the first point |
| FailoverSafety.PromotionsAreEarned | labs/reliability/02-disaster-recovery-state-machine/dr_failover.py:215-275 | The secondary is promoted only after an eligible check and, after that, a proven fence; the primary only when eligible and in step |
| FailoverSafety.InvAt | labs/reliability/02-disaster-recovery-state-machine/dr_failover.py:133-430 | Writer and traffic by state, kept by every transition |
| FailoverMoves.NextState | labs/reliability/02-disaster-recovery-state-machine/dr_failover.py:133-430 | Where each state leads and when, with what a region must be to take over spelt out |
| FailoverMoves.HoldChangesNothingElse | labs/reliability/02-disaster-recovery-state-machine/dr_failover.py:141-163 | Inconsistent data, and fast burn during a shift, lead to a hold; a hold leaves traffic, writers and freeze as they are |
| FailoverMoves.FrozenFromAssessment | labs/reliability/02-disaster-recovery-state-machine/dr_failover.py:184-200 | Changes are frozen by leaving assessment and in no other way, and what is observed is never changed |
| FailoverMoves.TrafficMoves | labs/reliability/02-disaster-recovery-state-machine/dr_failover.py:253-430 | Exactly when traffic moves, and to what share |
| FailoverMoves.RefusedExactly | labs/reliability/02-disaster-recovery-state-machine/dr_failover.py:78-97 | Which regions and policies are refused |
| FailoverMoves.CurrentTokenAccepted | labs/reliability/02-disaster-recovery-state-machine/dr_failover.py:125-130 | At every point of every run the region that writes accepts its own epoch and no other token, and the other region accepts none |
| FailoverStability.DistanceCountsDown | labs/reliability/02-disaster-recovery-state-machine/dr_failover.py:133-430 | Every transition that changes anything comes one closer to a fixed point, counted exactly; only a fixed point is at distance zero |
| FailoverStability.RunUntilStable | labs/reliability/02-disaster-recovery-state-machine/dr_failover.py:433-452 | The loop returns exactly distance + 1 transitions ending in a fixed point, and fails exactly if it may not take that many |
| FailoverStability.NormalBound | labs/reliability/02-disaster-recovery-state-machine/dr_failover.py:433-452 | From normal operation at most 8 + K transitions, K = max(1, ceil((100 - canary) / step)) |
| FailoverStability.NormalBoundReached | labs/reliability/02-disaster-recovery-state-machine/dr_failover.py:433-452 | That many when everything is in place |
| FailoverStability.NeverPastPrep | labs/reliability/02-disaster-recovery-state-machine/dr_failover.py:362-378 | With unchanging observations a run from normal operation never gets past preparing failback |
| FailoverStability.StepsPositive | labs/reliability/02-disaster-recovery-state-machine/dr_failover.py:288-296 | Each step of traffic is one of max(1, ceil(gap / step)) |
| FailoverModel.DestinationEligibility | labs/reliability/02-disaster-recovery-state-machine/dr_failover.py:100-122 | The list holds exactly the respects in which a region falls short, and is empty exactly if it is eligible |
| FailoverModel.EligibleMeansNoFailure | labs/reliability/02-disaster-recovery-state-machine/dr_failover.py:104-122 | Eligible means short in no respect |
| RepairTheorems.AlwaysWithinLimit | labs/kubernetes/01-node-repair-state-machine/node_repair.py:243-265 | After each of any number of cycles, with any change of the fleet in between that does not itself disrupt nodes, those cordoned, fenced, draining or replacing are no more than at the start or than the limit, in the cluster and in each zone |
| RepairTheorems.CycleWithinLimit | labs/kubernetes/01-node-repair-state-machine/node_repair.py:191-327 | The same for one cycle |
| RepairTheorems.RepairsExact | labs/kubernetes/01-node-repair-state-machine/node_repair.py:161-265 | With the breaker closed, repairs including verification grow by every restart that is due, limits notwithstanding; only what they grow by beyond that keeps to the limit |
| RepairTheorems.RestartsPassTheLimit | labs/kubernetes/01-node-repair-state-machine/node_repair.py:234-243 | Two restarts in one cycle under a limit of one repair |
| RepairTheorems.WritersAreFenced | labs/kubernetes/01-node-repair-state-machine/node_repair.py:293-308 | No number of cycles replaces a storage writer that is not fenced off completely |
| RepairTheorems.NodeOutcome | labs/kubernetes/01-node-repair-state-machine/node_repair.py:234-341 | What a cycle may do to a node: nothing, a bounded restart, fencing of an unfenced writer, or replacement, the last two only with enough capacity without it |
| RepairTheorems.DecidedOnce | labs/kubernetes/01-node-repair-state-machine/node_repair.py:223-233 | With the breaker closed each suspect or degraded node is decided on once, others not at all |
| RepairTheorems.OneReplacement | labs/kubernetes/01-node-repair-state-machine/node_repair.py:171-177 | With the gate required at most one replacement a cycle, and none while those under way include none that is ready |
| RepairTheorems.ComesToRest | labs/kubernetes/01-node-repair-state-machine/node_repair.py:191-341 | Repeated cycles stop changing the fleet after as many as it has candidates |
| RepairTheorems.LineOrdered | labs/kubernetes/01-node-repair-state-machine/node_repair.py:223-231 | Candidates are decided in the order of the source |
| RepairTheorems.LineTally | labs/kubernetes/01-node-repair-state-machine/node_repair.py:223-231 | The line holds the candidates of the fleet and no others |
| RepairTheorems.SlotsWithinLimit | labs/kubernetes/01-node-repair-state-machine/node_repair.py:243-265 | Going down the line never takes more slots than the limit leaves |
| RepairBreaker.BreakerExact | labs/kubernetes/01-node-repair-state-machine/node_repair.py:120-216 | The breaker opens exactly if repair is disabled, the failed share of some image reaches the percentage, or one failure is found in as many different zones as the policy says; then nothing is decided |
| RepairBreaker.RefusedExactly | labs/kubernetes/01-node-repair-state-machine/node_repair.py:79-106 | Which policies and fleets are refused |
| RepairBreaker.RepairsAre | labs/kubernetes/01-node-repair-state-machine/node_repair.py:70-76 | Under repair are exactly the nodes cordoned, fenced, draining, being replaced or being verified |
| RepairBreaker.FirstReplacement | labs/kubernetes/01-node-repair-state-machine/node_repair.py:171-177 | The first candidate that could be replaced is, exactly if replacements need not be ready, none is under way, or one that is has become ready |
| RepairTheorems.LineByUrgency | labs/kubernetes/01-node-repair-state-machine/node_repair.py:223-231 | That is: critical nodes first, then more failures, then zone and name |
| RepairSelection.ChosenExact | labs/kubernetes/01-node-repair-state-machine/node_repair.py:233-320 | The loop fences or replaces exactly the candidates that can be spared singly, with fewer such candidates of their zone ahead than the zone has free slots, fewer ahead that fit their zones than the cluster has, the gate open and, if replacements must be ready, nobody ahead replaced |
| RepairCapacity.CapacityExact | labs/kubernetes/01-node-repair-state-machine/node_repair.py:191-327 | For every policy and fleet: a cycle leaves the capacity policy asks for if and only if the breaker is open and there was enough, or there is enough without the suspect nodes that are due for a restart or, by the count of those ahead, fenced or replaced |
| RepairCapacity.CapacityWithRoom | labs/kubernetes/01-node-repair-state-machine/node_repair.py:180-327 | With room for every candidate and no gate, a cycle leaves enough if and only if there is enough without all suspect nodes due for a restart or spared singly, or the breaker is open and there was enough |
| RepairCapacity.CapacityWithoutRoom | labs/kubernetes/01-node-repair-state-machine/node_repair.py:171-265 | With the gate closed or every repair slot taken, a cycle leaves enough if and only if there is enough without the nodes due for a restart, or the breaker is open and there was enough |
| RepairCapacity.GateKeepsCapacity | labs/kubernetes/01-node-repair-state-machine/node_repair.py:171-320 | If replacements must be ready before the next, no restart is due and no suspect writer has to be fenced first, a cycle keeps the capacity promised |
| RepairCapacity.EnoughBeyondRisk | labs/kubernetes/01-node-repair-state-machine/node_repair.py:180-327 | Whatever the limits and the gate, enough without all suspect nodes due for a restart or spared singly is enough after the cycle |
| RepairCapacity.RestartsMustFit | labs/kubernetes/01-node-repair-state-machine/node_repair.py:234-243 | With the breaker closed there is enough after the cycle only if there is enough without the nodes due for a restart |
| RepairCapacity.OneSlotKeepsCapacity | labs/kubernetes/01-node-repair-state-machine/node_repair.py:243-291 | With no restart due and at most one repair slot free, a cycle keeps the capacity promised |
| RepairCapacity.CapacityCanRunOut | labs/kubernetes/01-node-repair-state-machine/node_repair.py:274-291 | The promise fails: two removals that each leave half may together leave nothing, two replacements without the gate or a fencing and another removal with it |
| RepairCapacity.RestartTakesAll | labs/kubernetes/01-node-repair-state-machine/node_repair.py:234-243 | The promise fails under every policy: a restart is not projected and may take the only node |
| RepairController.EvaluateRepair | labs/kubernetes/01-node-repair-state-machine/node_repair.py:191-327 | The decisions of a cycle, or that the breaker is open, or the error |
| RepairController.DecideAll | labs/kubernetes/01-node-repair-state-machine/node_repair.py:233-320 | The loop over candidates with its running counts |
| RepairController.SystemicFailure | labs/kubernetes/01-node-repair-state-machine/node_repair.py:120-158 | True exactly if an image fails too often or a signature is in too many zones |
| RepairController.CurrentRepairs | labs/kubernetes/01-node-repair-state-machine/node_repair.py:161-168 | Counts repairs in the cluster and in each zone |
| RepairController.ApplyDecisions | labs/kubernetes/01-node-repair-state-machine/node_repair.py:330-341 | Each node moves as the last decision by its name says, holds excepted |
| AdmissionTheorems.CriticalUndisturbed | labs/reliability/03-overload-blast-radius/overload_lab.py:76-116 | Each critical request is decided on as if only the critical requests had been made |
| AdmissionTheorems.CriticalReported | labs/reliability/03-overload-blast-radius/overload_lab.py:76-136 | With distinct ids the report shows of each critical request what the report on the critical requests alone shows |
| AdmissionTheorems.LimitsHold | labs/reliability/03-overload-blast-radius/overload_lab.py:86-116 | The requests admitted keep the capacity, each tenant's limit, and for optional ones what critical requests leave or have reserved |
| AdmissionTheorems.Maximal | labs/reliability/03-overload-blast-radius/overload_lab.py:86-116 | A request rejected would exceed a limit beside all those admitted |
| AdmissionTheorems.DecidedByAhead | labs/reliability/03-overload-blast-radius/overload_lab.py:76-116 | The report shows, of each request, the decision made on the last processed with its id, itself if ids are distinct, by those of higher priority and the earlier ones of its own |
| AdmissionTheorems.UsageIsSum | labs/reliability/03-overload-blast-radius/overload_lab.py:82-116 | The running counters are sums over the requests admitted, in any order |
| AdmissionTheorems.ReasonExact | labs/reliability/03-overload-blast-radius/overload_lab.py:86-113 | Each request meets the first limit it would exceed on top of what was admitted before its turn: its tenant's, the capacity, and for an optional one what the unused reserve leaves |
| AdmissionTheorems.CountsAreNumbers | labs/reliability/03-overload-blast-radius/overload_lab.py:121-136 | The four counts are numbers of requests by priority and decision |
| AdmissionTheorems.RefusedExactly | labs/reliability/03-overload-blast-radius/overload_lab.py:59-74 | Which limits are refused |
| AdmissionController.Admit | labs/reliability/03-overload-blast-radius/overload_lab.py:76-136 | Decisions in the order of the requests through the dictionary by id, consumed units and the four counts |
| AdmissionController.Process | labs/reliability/03-overload-blast-radius/overload_lab.py:82-116 | The loop over requests in order of priority |
| TelemetryTheorems.HigherUndisturbed | labs/observability/01-telemetry-pipeline/telemetry_lab.py:101-140 | For every rank, items of higher priority are decided on as if that rank and all below had been left out |
| TelemetryTheorems.HigherReported | labs/observability/01-telemetry-pipeline/telemetry_lab.py:101-151 | With distinct ids the report shows of each item what the report without lower priorities shows |
| TelemetryTheorems.NothingUnaccounted | labs/observability/01-telemetry-pipeline/telemetry_lab.py:108-138 | Accepted and dropped units are the total that came in |
| TelemetryTheorems.LimitsHold | labs/observability/01-telemetry-pipeline/telemetry_lab.py:122-138 | The items accepted exceed neither capacity nor any tenant's quota |
| TelemetryTheorems.Maximal | labs/observability/01-telemetry-pipeline/telemetry_lab.py:122-133 | What is dropped for want of space does not fit beside everything accepted, either |
| TelemetryTheorems.LabelsDecide | labs/observability/01-telemetry-pipeline/telemetry_lab.py:88-99 | Reported as turned away for labels exactly if the last item processed with its id is a metric with a forbidden or too long one |
| TelemetryTheorems.DecidedByAhead | labs/observability/01-telemetry-pipeline/telemetry_lab.py:101-138 | The report shows, of each item, the decision made on the last processed with its id, itself if ids are distinct, by those of higher priority and the earlier ones of its own |
| TelemetryTheorems.ReasonExact | labs/observability/01-telemetry-pipeline/telemetry_lab.py:88-138 | Each item meets the first objection there is: for a metric one of the six forbidden labels, then a label that is too long; then its tenant's quota and the capacity on top of what was taken in before its turn |
| TelemetryTheorems.OldestAccepted | labs/observability/01-telemetry-pipeline/telemetry_lab.py:135-150 | The greatest age reported is that of an accepted item, no accepted item is older, and it is zero if none is accepted |
| TelemetryTheorems.AcceptedIsNumber | labs/observability/01-telemetry-pipeline/telemetry_lab.py:140-149 | The count of accepted items is their number |
| TelemetryTheorems.PriorityOrder | labs/observability/01-telemetry-pipeline/telemetry_lab.py:102-106 | Critical goes before normal before debug |
| TelemetryTheorems.RefusedExactly | labs/observability/01-telemetry-pipeline/telemetry_lab.py:70-86 | Which limits are refused |
| TelemetryIngest.Ingest | labs/observability/01-telemetry-pipeline/telemetry_lab.py:101-151 | The report in the order of the items, with units, counts and greatest age |
| TelemetryIngest.Process | labs/observability/01-telemetry-pipeline/telemetry_lab.py:113-138 | The loop over items in order of priority |
| TelemetryIngest.MaxAge | labs/observability/01-telemetry-pipeline/telemetry_lab.py:150-150 | The greatest accepted age, or zero |
| Priorities.PlaceOf | labs/observability/01-telemetry-pipeline/telemetry_lab.py:102-106 | Each place in the sorted order has its item |
| Priorities.MeasureIsSum | labs/observability/01-telemetry-pipeline/telemetry_lab.py:113-138 | Whatever grows item by item in the sorted order is a sum over the items, in any order |
| Priorities.Place | labs/observability/01-telemetry-pipeline/telemetry_lab.py:102-106 | Sorting by rank and index puts each item after those of smaller rank and the earlier ones of its own |
| Priorities.RankedSum | labs/observability/01-telemetry-pipeline/telemetry_lab.py:102-106 | Sorting rearranges: every sum over the items stays the same |
| CacheRuns.NeverStale | labs/distributed-systems/04-cache-races/cache_race_demo.py:35-60 | What is cached was committed at the version of the fence and is no older than any invalidation applied |
| CacheRuns.EmptyOrCurrent | labs/distributed-systems/04-cache-races/cache_race_demo.py:35-60 | Once the last commit has been invalidated, the cache is empty or holds that commit |
| CacheRuns.NeverBackwards | labs/distributed-systems/04-cache-races/cache_race_demo.py:35-60 | Readers of the cache never go back to an older version |
| CacheRuns.FenceSuffices | labs/distributed-systems/04-cache-races/cache_race_demo.py:46-55 | A fill is rejected exactly if it is below the fence: the second test never decides |
| CacheRuns.InvRun | labs/distributed-systems/04-cache-races/cache_race_demo.py:26-60 | The invariant of any interleaving of commits, reads, delayed fills and invalidations |
| CacheRuns.FillExact | labs/distributed-systems/04-cache-races/cache_race_demo.py:45-60 | In every run a fill is accepted if and only if its version is not negative and not below that of any invalidation applied or any fill accepted; then it is what is cached |
| CacheRuns.InvalidationEmpties | labs/distributed-systems/04-cache-races/cache_race_demo.py:35-38 | An invalidation always empties the cache, also a late one, and never lowers the fence |
| CacheModel.CacheState.SafeFill | labs/distributed-systems/04-cache-races/cache_race_demo.py:45-60 | The entry after a fill and whether it was accepted |
| CacheModel.CacheState.SafeInvalidate | labs/distributed-systems/04-cache-races/cache_race_demo.py:35-38 | The entry is emptied and the fence never falls |
| LeaseRuns.OneLeaseAtATime | labs/distributed-systems/03-fencing-tokens/fencing_demo.py:42-57 | Whatever the clocks say, leases do not overlap and tokens count them |
| LeaseRuns.BlocksInLeaseOrder | labs/distributed-systems/03-fencing-tokens/fencing_demo.py:78-88 | Accepted writes come in one block per lease, in the order of the leases |
| LeaseRuns.StaleWritesRefused | labs/distributed-systems/03-fencing-tokens/fencing_demo.py:78-88 | After an accepted write with a token, no lower token ever changes the value |
| LeaseRuns.AcceptedIffNoneHigher | labs/distributed-systems/03-fencing-tokens/fencing_demo.py:78-88 | A write is accepted if and only if no write with a higher token has been |
| LeaseRuns.StaleWriteBeforeFirstUse | labs/distributed-systems/03-fencing-tokens/fencing_demo.py:78-88 | So a lease that has run out can still write until its successor does |
| LeaseRuns.GrantedExactly | labs/distributed-systems/03-fencing-tokens/fencing_demo.py:42-57 | A lease is granted if and only if none has been or the last has run out; it is in the caller's name, with the next token, from now for the whole duration |
| LeaseRuns.WrittenAsGiven | labs/distributed-systems/03-fencing-tokens/fencing_demo.py:78-88 | An accepted write is recorded with its value and token, and a refused one changes nothing |
| LeaseRuns.LastAcceptedIsHeld | labs/distributed-systems/03-fencing-tokens/fencing_demo.py:78-88 | The resource holds the value accepted last |
| LeaseModel.LeaseCoordinator.Create | labs/distributed-systems/03-fencing-tokens/fencing_demo.py:35-40 | A coordinator without a lease, or an error for a duration that is not positive |
| LeaseModel.LeaseCoordinator.Acquire | labs/distributed-systems/03-fencing-tokens/fencing_demo.py:42-57 | The next lease, or an error exactly while the last one runs |
| LeaseModel.FencedResource.Write | labs/distributed-systems/03-fencing-tokens/fencing_demo.py:78-88 | Accepted exactly if the token is not lower than the highest seen |

## Left out

- BrokerObject.Broker.Receive: keeps messages as values in the queue, not as shared mutable objects; what a caller could do by keeping a reference to a message is not modelled.
- RetrySimulator.Simulation.SimulateRequest: does not model that failures and jitter are drawn from one generator, so it allows more draws than a single seed gives.
- RetrySimulator.Run: leaves out percentiles and the retry-wave histogram of the report.
- PipelineObject.Drive: ends with run() past its joins; cancelling the remaining tasks, the reporter and the snapshot's latencies are not modelled.
- PipelineObject.Pipeline.ProduceEvent: takes the event as given; the rate, the duplicate and hot-key draws, sleeps and delays are not modelled, and a suspension is allowed at every await even where asyncio would not suspend.
- OutboxObject.Databases.Relay: takes the pending rows as a parameter; created_at and the index that orders them are not modelled.
- FailoverStability.RunUntilStable: records state and context of each transition, not its action and reason strings.
- RepairController.EvaluateRepair: leaves out reason strings and the rounded projected capacity in the result.
- PipelineProgress.WedgeExact: takes any failures as possible; with a transient failure rate of zero no wedge is reached.
- RepairTheorems.AlwaysWithinLimit: says nothing of nodes being verified, because restarts do not respect the limits; see RepairTheorems.RepairsExact.
- RepairTheorems.CycleWithinLimit: leaves out nodes being verified for the same reason.
- RepairController.SystemicFailure: gives whether the breaker opens, not the reason string.
- ShardReassign.SetOwnerSafeExact: is exact for one reassignment followed by disciplined steps; for any number of steps out of turn ShardOutOfTurn.PrudentRefinement gives a test that suffices.
- ShardOverlap.BeginExact: is exact for one migration out of turn followed by disciplined steps, likewise.
- LeaseRuns.StaleWritesRefused: does not promise more than the code does before a token's first use; see LeaseRuns.AcceptedIffNoneHigher.
- Float rounding: percentages, latencies and traffic are exact reals; percentages are compared by cross-multiplication.
- Unsafe variants (unfenced writes are in the shard model as a flag; `unsafe_fill`, `unsafe_delete` and `UnsafeResource` are not modelled).
- Scenario functions, argument parsing, printing, JSON and files of all labs.
- Rollout planning before `create_batches`: validation of policies and clusters, and which clusters are eligible.
- `range_partition`, distribution and skew reports, `plan_failover`, `retry_budget_attempts`, `plan_replay`, trace sampling, loss rates, the stampede demonstration: closed formulas or single branches that would only add easy members.
- The other labs: contract validators, error budgets, autoscaling, mesh and identity labs are independent checks or library calls.
