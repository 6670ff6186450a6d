# Verified model of the game-net-core benchmark and evidence protocols

game-net-core ships its performance and reliability claims through hand-written concurrent benchmark
drivers (C++) and through producers and independent validators of evidence (Python). This project models
that machinery in Dafny and proves what the drivers and validators rely on but never state in one place:
barriers, lost-wake-up freedom, conservation of counters, termination, and agreement between each producer
and the checker that later judges it.

Concurrency is modelled as state machines over single atomic steps (`Enabled`, `Apply`, and `Executable` /
`After` over sequences of actions), with an inductive invariant and theorems about every run from the initial
state, for any number of threads. Sequential code is modelled as methods with loops, and objects as classes;
sockets, the kernel, clocks and child processes are nondeterministic inputs.

| file | component |
|---|---|
| `WorkerPool.dfy` | the generation-barrier pools `HealthyProbePool` and `ChurnConnectorPool` |
| `CompletionCheck.dfy` | the coalesced completion check of the core benchmark |
| `PeakCounter.dfy` | the compare-exchange peak counters |
| `UringEngine.dfy`, `OneShotPipeline.dfy` | the io_uring engine's slot bookkeeping and the one-shot Send/Receive pipeline on top of it |
| `SharedHub.dfy` | the per-route reassembly of the shared-Hub benchmark |
| `BatchAccounting.dfy` | paced probe and churn batches, and the equations their validators check |
| `Recovery.dfy` | the stable-window monitor and the strided recovery readers |
| `Endurance.dfy` | the endurance supervisor and its evidence verifier |
| `HeaderNormaliser.dfy` | the comment and whitespace normaliser behind API fingerprints |
| `HotPathCosts.dfy`, `HotPathLedger.dfy` | the hot-path cost ledger: runner and validator |
| `RegressionGate.dfy` | the median-based performance gate |
| `PairedSchedule.dfy` | the interleaving of candidate and baseline runs |
| `BroadcastTasks.dfy` | the broadcast task-count formula |
| `Totals.dfy`, `Sorting.dfy`, `Arithmetic.dfy`, `Striding.dfy` | shared sums, sorting, ceilings and strides |
| `PythonValues.dfy`, `PythonText.dfy`, `Wrappers.dfy` | Python's numbers and whitespace, optional values |

## Findings

Four of the promised properties hold only under a condition.

- The endurance supervisor compares heartbeat cycle numbers with `==` only, while the verifier also demands an
  integer. A run that wrote `1.0` succeeds and its evidence is then refused (`Endurance.FloatCycleIsRefused`); the
  evidence of a successful run is accepted exactly if its last heartbeat wrote the cycle as an integer
  (`Endurance.EvidenceVerdict`).
- The ledger runner does not range-check the costs it extracts (a bare path passes any value on, a scaled one any
  sign), so it can write a cost that the validator refuses: a negative or non-numeric one, or an integer beyond the
  range of floats (`HotPathLedger.UncheckedCostIsRefused`); `HotPathLedger.LedgerVerdict` gives the exact condition.
- A slash that dangles before a comment changes how the header normaliser reads the comment
  (`HeaderNormaliser.DanglingSlashBreaks`); comments count as one space exactly if no slash dangles
  (`HeaderNormaliser.CommentIsOneSpace`).
- The completion check compares two counters whose reading order C++ leaves open. Read `disconnected()` first, the
  server is stopped only in runs that were complete at some moment (`CompletionCheck.DisconnectedFirstIsExact`); read
  `connected()` first, it can be stopped with a connection open (`CompletionCheck.ConnectedFirstMayOvertake`).

## Model

| member | source | states |
|---|---|---|
| `WorkerPool.InitEstablishes` | benchmarks/capacity/main.cpp:981-1010 | the freshly constructed pool of any size satisfies the barrier invariant, generation 0 being no special case |
| `WorkerPool.StepKeeps` | benchmarks/capacity/main.cpp:1028-1164 | every atomic step of the coordinator or of any worker, spurious wake-ups included, keeps the invariant |
| `WorkerPool.RunKeeps` | benchmarks/capacity/main.cpp:1028-1164 | every interleaving keeps the invariant |
| `WorkerPool.BarrierHolds` | benchmarks/capacity/main.cpp:1028-1164 | in every reachable state no worker is more than one generation behind or joins one twice, the completed count is exact during a phase, and whenever the slots are touched without the lock nobody is in the claim loop |
| `WorkerPool.MissedPlusConnected` | benchmarks/core/main.cpp:1058-1069 | over processed slots, failed and connected attempts add up to the slot count |
| `WorkerPool.PhaseComplete` | benchmarks/core/main.cpp:1038-1111 | in every completed phase each slot was processed by exactly one worker, the claim index stands at slots plus workers, the copy read so far is a prefix of the slot vector, and clients plus connect failures equal the slots |
| `WorkerPool.ConnectReturns` | benchmarks/core/main.cpp:1038-1070 | whatever the schedule, a request for `count` connects hands back exactly `count` attempts, each one try from scratch, and clients plus failures equal `count` |
| `WorkerPool.ExchangeReturns` | benchmarks/capacity/main.cpp:1042-1077 | the batch the following Exchange phase hands back pairs off, slot by slot, with the batch handed back before it, whatever happened in between |
| `WorkerPool.SomeThreadCanMove` | benchmarks/core/main.cpp:1038-1111 | no deadlock and no lost wake-up: until the pool is joined some thread has a step that is not a spurious wake-up |
| `WorkerPool.StepDecreases` | benchmarks/capacity/main.cpp:1053-1164 | every step of a phase but a spurious wake-up lowers a bound on the steps left |
| `WorkerPool.PhaseTerminates` | benchmarks/capacity/main.cpp:1053-1164 | every schedule of a phase, spurious wake-ups included, is at most as long as the measure plus two steps for each of those wake-ups |
| `WorkerPool.PhaseEndsReading` | benchmarks/capacity/main.cpp:1053-1077 | a phase with no step left but spurious wake-ups has reached the unlocked read of the slots |
| `WorkerPool.WakeUpsUnbounded` | benchmarks/capacity/main.cpp:1063-1066 | without that term there is no bound: a sleeping coordinator may wake and look again any number of times |
| `WorkerPool.LaunchBudget` | benchmarks/capacity/main.cpp:1053-1164 | a phase over k slots and n workers takes at most 3k + 9n + 2 steps and two more for each spurious wake-up, whatever the schedule |
| `CompletionCheck.StepKeeps` | benchmarks/core/main.cpp:1780-1873 | every atomic access of callbacks, driver, timer and base loop keeps the protocol invariant, with the two counts read in either order |
| `CompletionCheck.NoCheckIsLost` | benchmarks/core/main.cpp:1817-1873 | in every reachable state a completed, unstopped run has a check on its way, a thread about to schedule one, an armed retry or a failure on record; at most one check is outstanding and stop is requested at most once |
| `CompletionCheck.StopIsJustified` | benchmarks/core/main.cpp:1836-1856 | the graceful stop is the first, and as many connections have been reported closed as had been counted at some moment after the driver was done; a connection counted after that moment may still be open |
| `CompletionCheck.DisconnectedFirstIsExact` | benchmarks/core/main.cpp:1841 | when disconnected() is read first, the stop is issued only in runs that were complete at some moment |
| `CompletionCheck.ConnectedFirstMayOvertake` | benchmarks/core/main.cpp:1841 | when connected() is read first, a run that was complete at no moment and is stopped with one connection open |
| `CompletionCheck.NextStep` | benchmarks/core/main.cpp:1817-1856 | a completed run that is neither stopping nor failed always has a step of its own to take |
| `CompletionCheck.CompletedRunStops` | benchmarks/core/main.cpp:1780-1924 | from every reachable completed state, every schedule of the remaining steps is bounded by a measure plus six steps for each look that finds the connection map not yet empty, and can end only with the stop requested or a failure recorded |
| `PeakCounter.StepKeeps` | benchmarks/capacity/main.cpp:528-537 | no step of any observer, with spurious compare-exchange failures, lowers the peak or breaks the invariant |
| `PeakCounter.PeakIsMaximum` | benchmarks/capacity/main.cpp:528-537 | for every run the peak never falls below a returned sample and at quiescence is the maximum of the initial value and all samples |
| `PeakCounter.LockFree` | benchmarks/core/main.cpp:288-295 | in every run an observer retries, other than spuriously, at most once for each raise of the peak, and each raise lets an observer return |
| `UringEngine.IdentityRecurs` | src/experimental/io_uring/IoUringCompletionEngine.cc:515-518 | a slot shows an old identity again after a multiple of 2^31 - 1 uses and never before |
| `UringEngine.Engine.constructor` | src/experimental/io_uring/IoUringCompletionEngine.cc:114-127 | a new engine is empty and its accounting exact |
| `UringEngine.Engine.FindFreeSlot` | src/experimental/io_uring/IoUringCompletionEngine.cc:769-776 | finds the lowest slot that is neither active nor holding an untaken notice, and fails only at the operation limit |
| `UringEngine.Engine.Enqueue` | src/experimental/io_uring/IoUringCompletionEngine.cc:458-590 | accepts exactly within all four admission limits, takes a free slot under its next generation and changes nothing when it rejects |
| `UringEngine.Engine.Flush` | src/experimental/io_uring/IoUringCompletionEngine.cc:614-663 | submits everything pending and changes no other accounting |
| `UringEngine.Engine.PublishTerminal` | src/experimental/io_uring/IoUringCompletionEngine.cc:700-744 | moves one active operation to the back of the ready queue and keeps its bytes owned |
| `UringEngine.Engine.TakeNextNotice` | src/experimental/io_uring/IoUringCompletionEngine.cc:290-308 | takes the oldest notice, whose slot still carries its generation; neither of the two logic errors can occur |
| `OneShotPipeline.KeyRoundTrips` | benchmarks/io_uring/one_shot.cpp:114-117 | slot and generation can be read back from the key when the slot fits 32 bits |
| `OneShotPipeline.KeyIsInjective` | benchmarks/io_uring/one_shot.cpp:114-117 | distinct identities with 32-bit slots have distinct keys |
| `OneShotPipeline.MirrorInsert` | benchmarks/io_uring/one_shot.cpp:221-234 | filing an operation under a freshly used slot is never a duplicate and keeps one map entry per busy slot |
| `OneShotPipeline.MirrorErase` | benchmarks/io_uring/one_shot.cpp:250-260 | the entry of a taken notice is present, has the notice's kind, and erasing it keeps the correspondence |
| `OneShotPipeline.Pipeline.Submit` | benchmarks/io_uring/one_shot.cpp:221-234 | while the window has room the engine cannot reject, and exactly one map entry is added |
| `OneShotPipeline.Pipeline.TakeEntry` | benchmarks/io_uring/one_shot.cpp:250-260 | a notice always names a pending entry of its own kind, so only a failed or short operation is an error |
| `OneShotPipeline.Pipeline.StartReceive` | benchmarks/io_uring/one_shot.cpp:262-271 | a finished Send starts exactly one Receive, with the Send's start time |
| `OneShotPipeline.Pipeline.CloseRoundTrip` | benchmarks/io_uring/one_shot.cpp:272-277 | a finished Receive records one latency, counts one round trip and refills the window while round trips are left |
| `OneShotPipeline.Pipeline.HandleNotice` | benchmarks/io_uring/one_shot.cpp:250-281 | every notice keeps pending == scheduled - completed, the window full and all latencies non-negative, and consumes one of the notices |
| `OneShotPipeline.Pipeline.SomethingIsUnderWay` | benchmarks/io_uring/one_shot.cpp:245-250 | an unfinished run with no notice to take has an operation under way, so no wait is in vain |
| `OneShotPipeline.Pipeline.Pass` | benchmarks/io_uring/one_shot.cpp:245-281 | one pass of the outer loop takes every notice delivered, and lets time pass if there is none |
| `OneShotPipeline.Pipeline.Run` | benchmarks/io_uring/one_shot.cpp:236-308 | for every order and result of completions the loop ends, after at most two passes per round trip besides the idle ones, converges after exactly two notices per round trip with an empty map, and never fails its own convergence checks |
| `OneShotPipeline.Benchmark` | benchmarks/io_uring/one_shot.cpp:90-112 | with the clamped depth, only a deadline, a failed operation or the peer can make the benchmark fail |
| `SharedHub.Benchmark.constructor` | benchmarks/io_uring/shared_tcp_hub.cpp:407-416 | every route starts with one unanswered payload |
| `SharedHub.Benchmark.Deliver` | benchmarks/io_uring/shared_tcp_hub.cpp:354-390 | any fragment of any route's echo keeps at most one unanswered payload per route and partial bytes below a payload; only a rejected send can fail |
| `SharedHub.Benchmark.SomeoneIsOwed` | benchmarks/io_uring/shared_tcp_hub.cpp:354-390 | an unfinished run still has echo bytes under way |
| `SharedHub.Benchmark.Run` | benchmarks/io_uring/shared_tcp_hub.cpp:351-439 | for every fragmentation and interleaving a run without time-out or rejected send stops the hub once, with every route complete, no partial bytes and one latency per round trip |
| `BatchAccounting.TallyConnects` | benchmarks/capacity/main.cpp:1380-1388 | connected and failed clients of a batch are counted exactly |
| `BatchAccounting.TallyExchange` | benchmarks/capacity/main.cpp:1399-1425 | each counter of the switch counts exactly the attempts that ended its way |
| `BatchAccounting.ExchangeSettles` | benchmarks/capacity/main.cpp:1106-1153 | the exchange phase neither connects nor disconnects anybody and leaves each attempt with one definite ending |
| `BatchAccounting.SettledSplit` | benchmarks/capacity/main.cpp:1408-1424 | connected attempts split into successes and post-connect failures; the switch's Connect and None cases are never reached |
| `BatchAccounting.RunHealthyProbes` | benchmarks/capacity/main.cpp:1331-1440 | a run that returns made rate times duration attempts in the ceiling number of batches, and its counters count the history of attempts |
| `BatchAccounting.RecordsBalance` | benchmarks/capacity/main.cpp:1791-1801 | a report that counts a history satisfies both conservation equations |
| `BatchAccounting.ProbeRunVerdict` | tools/validate_capacity_profile.py:611-635 | finalizeChecks and the profile validator add to these equations only the server's counts and, for the validator, that nothing failed: both verdicts as if-and-only-if |
| `BatchAccounting.SharedState.MarkConnected` | benchmarks/core/main.cpp:180-197 | one more accept on exactly the given owner loop, and the per-loop counts still sum to the connects |
| `BatchAccounting.BumpedTotal` | benchmarks/core/main.cpp:183-194 | bumping one owner's entry, present or not, raises the sum by one |
| `BatchAccounting.ReportedCountsAddUp` | benchmarks/core/main.cpp:364-374 | the reported worker counts are the owners' counts and one zero for every other loop, in ascending order, and sum to the accepted connections |
| `BatchAccounting.RunConnectionChurn` | benchmarks/core/main.cpp:1271-1396 | a churn run that returns satisfies attempts, batches and conservation, and the validator's equations hold exactly if anything was accepted |
| `Arithmetic.BatchesIsCeiling` | benchmarks/capacity/main.cpp:1349-1379 | the paced loop takes the ceiling of attempts over batch size |
| `Recovery.MonitorRecovery` | benchmarks/capacity/main.cpp:2688-2720 | reports recovery at the first sample that ends an unbroken quiescent run of at least the stable window before the deadline, and otherwise says whether a failed reader or the deadline came first |
| `Recovery.RecoveryOutlastsWindow` | benchmarks/capacity/main.cpp:1725-1732 | the recovery time both checkers test is never shorter than the stable window |
| `Recovery.WindowRestarts` | benchmarks/capacity/main.cpp:2700-2714 | a recovery comes at least a whole stable window after every non-quiescent sample before it |
| `Recovery.Sweep` | benchmarks/capacity/main.cpp:2605-2634 | the local index always addresses the cell of its own client, and remaining is the number of open cells |
| `Recovery.ReaderMain` | benchmarks/capacity/main.cpp:2576-2647 | a reader finishes exactly if it closed its whole share |
| `Recovery.RunReaders` | benchmarks/capacity/main.cpp:2561-2660 | all readers finish if and only if closed sockets equal the clients |
| `Recovery.ReadersAccountForAll` | benchmarks/capacity/main.cpp:2561-2660 | however the readers interleave on the shared count, it never exceeds the clients and, once all have exited, equals them exactly if none gave up |
| `Striding.IndexHasOneOwner` | benchmarks/capacity/main.cpp:2578-2584 | the strides partition the client indices: one worker and one local position each |
| `Striding.ShareIsEvenSplit` | tools/validate_phase4_benchmark.py:210-214 | the stride's share is the even split with one extra for the first remainder owners |
| `Striding.SharesCoverAll` | benchmarks/capacity/main.cpp:1817-1825 | the shares of all workers add up to the clients |
| `Endurance.HeartbeatDecision` | tools/run_endurance_gate.py:137-149 | a heartbeat is accepted exactly if it is the next cycle, not earlier, complete, within both memory budgets and acknowledged |
| `Endurance.ObserveTracks` | tools/run_endurance_gate.py:325-391 | each accepted event keeps the loop's variables exact over the stream so far; a rejected one means the stream is not well-formed |
| `Endurance.EndOfStream` | tools/run_endurance_gate.py:396-404 | the summary was seen exactly if the whole stream is well-formed |
| `Endurance.ObserveAll` | tools/run_endurance_gate.py:325-394 | the event loop raises only on streams that are not well-formed and otherwise ends with exact variables |
| `Endurance.RunEndurance` | tools/run_endurance_gate.py:325-404 | success exactly on gap-free cycles 1..n, monotone times, one final summary, in-budget memory, exit code 0 and full duration; the evidence describes that stream |
| `Endurance.EvidenceVerdict` | tools/verify_endurance_evidence.py:59-118 | the verifier accepts the evidence of a well-formed stream if and only if the last heartbeat wrote its cycle as an integer |
| `Endurance.SuperviseThenVerify` | tools/verify_endurance_evidence.py:59-118 | supervisor and verifier together: when a run succeeds, and when what it wrote is accepted, in terms of the child's output |
| `Endurance.FloatCycleIsRefused` | tools/verify_endurance_evidence.py:92-93 | a concrete run that succeeds and is refused |
| `HeaderNormaliser.ScanAt` | tools/verify_public_api_manifest.py:42-80 | one pass of the loop with its lookahead is one step of the recursive scanner |
| `HeaderNormaliser.NormalizeCppPublicSurface` | tools/verify_public_api_manifest.py:36-81 | the index loop computes the recursive scanner followed by splitting and joining |
| `HeaderNormaliser.JoinSplitIsCollapse` | tools/verify_public_api_manifest.py:81 | splitting into words and joining is a one-pass collapse of whitespace runs |
| `HeaderNormaliser.StripIsClean` | tools/verify_public_api_manifest.py:41-80 | the scanner's output contains no comment a second scan would find |
| `HeaderNormaliser.SqueezeKeepsClean` | tools/verify_public_api_manifest.py:58-81 | collapsing whitespace, inside literals too, neither creates a comment nor moves the end of a literal |
| `HeaderNormaliser.NormaliseIsIdempotent` | tools/verify_public_api_manifest.py:36-81 | normalising twice is normalising once, for every text |
| `HeaderNormaliser.StripConcat` | tools/verify_public_api_manifest.py:41-80 | scanning is compositional wherever the first part does not end on an undecided character |
| `HeaderNormaliser.DanglingSlashBreaks` | tools/verify_public_api_manifest.py:68-75 | after every text that ends on a dangling slash some comment is not equivalent to a space |
| `HeaderNormaliser.CommentIsOneSpace` | tools/verify_public_api_manifest.py:44-75 | in code state every comment, a last line comment without newline included, may be replaced by one space if and only if no slash dangles before it |
| `HeaderNormaliser.LiteralIsKept` | tools/verify_public_api_manifest.py:58-67 | a string or character literal survives the scanner character for character, comment markers included |
| `HeaderNormaliser.LiteralSurvives` | tools/verify_public_api_manifest.py:58-81 | the normalised text contains every literal met in code, with only the whitespace runs inside it collapsed, right before what is kept of the rest |
| `HotPathCosts.ExtractCosts` | tools/run_hot_path_cost.py:119-121 | each key gets the figure its configured source names, or null; fails exactly when an extraction fails |
| `HotPathCosts.MergeCosts` | tools/run_hot_path_cost.py:113-134 | succeeds exactly when every key merges, and then each key has the observer's figure where it reports and the benchmark's otherwise |
| `HotPathLedger.ListMissing` | tools/run_hot_path_cost.py:262-268 | the nested loops list the missing costs in scenario, sample and cost order |
| `HotPathLedger.NoneMissing` | tools/run_hot_path_cost.py:262-268 | the list is empty exactly if no sample lacks a required cost |
| `HotPathLedger.TurnTaken` | tools/run_hot_path_cost.py:222-260 | one turn of the round-robin extends its own scenario's record and no other |
| `HotPathLedger.SampleRoundRobin` | tools/run_hot_path_cost.py:222-260 | after all rounds each scenario holds its samples 1..n in order, each from its own child; fails exactly if some merge fails |
| `HotPathLedger.WarmUp` | tools/run_hot_path_cost.py:205-218 | passes exactly if every scenario merges and delivers all required costs |
| `HotPathLedger.RunSuite` | tools/run_hot_path_cost.py:137-328 | when a manifest is written, what it contains, and that an incomplete fixed-lab run writes it and then raises |
| `HotPathLedger.CheckSample` | tools/validate_hot_path_cost.py:138-205 | accepts exactly the samples whose costs rebuild from the evidence, with reasons for exactly the null ones |
| `HotPathLedger.CheckRecords` | tools/validate_hot_path_cost.py:124-206 | the validator's loops accept exactly the matching records and collect the missing costs on their own, from the inventory and their own numbering |
| `HotPathLedger.ListingsAgree` | tools/validate_hot_path_cost.py:127-208 | on records that match the inventory the validator's list is the runner's list, in the same order |
| `HotPathLedger.AcceptedListIsExact` | tools/validate_hot_path_cost.py:208 | an accepted manifest lists exactly the missing costs of its own records |
| `HotPathLedger.ValidateManifest` | tools/validate_hot_path_cost.py:124-225 | accepts exactly the manifests whose records, missing list, eligibility and status re-derive |
| `HotPathLedger.LedgerVerdict` | tools/validate_hot_path_cost.py:127-225 | a written manifest is accepted if and only if its text fields are not blank and every cost the observer leaves open is null or a non-negative number within the range of floats; with the fixed-lab demand exactly if also eligible |
| `HotPathLedger.EligibleWhen` | tools/run_hot_path_cost.py:269-278 | promotion eligibility is exactly the fixed environment plus every required cost present in every sample |
| `HotPathLedger.RunThenValidate` | tools/run_hot_path_cost.py:137-328 | runner and validator together: both outcomes in terms of the arguments and the children alone |
| `HotPathLedger.UncheckedCostIsRefused` | tools/hot_path_cost_common.py:133-135 | for every figure the validator will not take, a run that records it and a manifest that is refused |
| `RegressionGate.MedianAtMost` | tools/compare_performance_regression.py:213-214 | the median is at most t exactly if a strict majority of the samples is |
| `RegressionGate.MedianAtLeast` | tools/compare_performance_regression.py:213-214 | the median is at least t exactly if a strict majority of the samples is |
| `RegressionGate.MedianOfPermutation` | tools/compare_performance_regression.py:213-214 | reordering samples does not move the median |
| `RegressionGate.MedianMonotone` | tools/compare_performance_regression.py:213-214 | pointwise larger samples have a median at least as large |
| `RegressionGate.PassIsMajority` | tools/compare_performance_regression.py:213-220 | a metric passes exactly if a strict majority of candidate samples meets the threshold |
| `RegressionGate.GateIsMonotone` | tools/compare_performance_regression.py:202-221 | better candidate samples, worse baseline samples, any reordering, a larger ratio or slack never turn pass into fail |
| `RegressionGate.SameSamplesPass` | tools/compare_performance_regression.py:202-221 | a candidate that reproduces the baseline passes |
| `RegressionGate.Compare` | tools/compare_performance_regression.py:182-241 | raises exactly on an inadmissible or empty budget; each scenario and the overall result pass exactly if all their metrics do |
| `PairedSchedule.RunMatrix` | tools/run_paired_performance_matrix.py:215-265 | the nested loops produce the slot-by-slot schedule |
| `PairedSchedule.SidesRunAlike` | tools/run_paired_performance_matrix.py:215-265 | each side runs every scenario's warm-up and repetitions 1..R once, in order |
| `PairedSchedule.NeverMoreThanOneAhead` | tools/run_paired_performance_matrix.py:235-265 | at every moment the recorded runs of the two sides differ by at most one |
| `PairedSchedule.DriftIs` | tools/run_paired_performance_matrix.py:235-242 | after any number of slots, how far the recorded candidate runs sit ahead of the baseline runs in summed position, which is the first-run advantage: exactly one per scenario for odd R, alternating in sign |
| `PairedSchedule.SteadyDriftCancels` | tools/run_paired_performance_matrix.py:235-242 | over the whole matrix the advantage cancels if and only if the scenario count or the repetition count is even |
| `BroadcastTasks.ClosedFormSoFar` | tools/validate_phase4_benchmark.py:209-215 | owner by owner, the closed form counts the chunks of dealt endpoints |
| `BroadcastTasks.TaskCountIsExact` | tools/validate_phase4_benchmark.py:209-215 | the closed form equals the number of chunks of an even deal, and lies between the fewest batches and one partial batch per owner with an endpoint |

## Left out

- Sockets, poll loops, `/proc`, Windows calls, process spawning, JSON text and files: they appear only as the results they may deliver.
- `EventLoop`, `TcpServer` and the hub behind the shared-Hub benchmark: modelled as environments with the contract the drivers use.
- Memory orders weaker than sequential consistency, and wrap-around of the pools' 64-bit generation counter.
- Floating-point rounding: rates, medians, thresholds and scaled costs are exact reals; NaN and the overflow of a scaled cost do not occur.
- The pools' constructor failure path, and the latency samples, rates, percentiles and pacing checks beside the counters.
- UringEngine.Engine.Enqueue: Accept, Connect, cancellation, quiescing and shutdown are not modelled, and a payload's vector is taken to reserve exactly its size.
- UringEngine.Engine.Flush: models a flush after which the kernel has taken every entry; a partial or failing flush is an exception in the source.
- OneShotPipeline.Pipeline.Run: assumes that the clock advances in a wait that delivers nothing, which has run into its timeout; cancellations and stale completions, which could end a wait early, do not occur in this benchmark.
- SharedHub.Benchmark.Run: the close callbacks, the stop summary and the working-set figures are not modelled.
- BatchAccounting.RunConnectionChurn: assumes the server reports each successful client once and every close before the wait ends; close reasons and skew are not modelled.
- Recovery.ReadersAccountForAll: treats a reader's sweep as the sockets it finds closed, one at a time; the sweep itself is `Recovery.Sweep`.
- Endurance.RunEndurance: smoke mode, the checkpoint file, log hashing and the test labels are not modelled.
- HotPathLedger.ValidateManifest: artifact paths and hashes, metric records, child parameters, dictionary order and the host identity are not modelled.
- RegressionGate.Compare: takes the samples as loaded; schema checks, parameter comparison and the minimum of three repetitions belong to loading.
- UringEngine.Engine.constructor: takes the limits as given; ring set-up and feature probing are not modelled.
- The listener comparison, release assembly, SPDX, provenance and scope checkers: fixed constants and field equality, nothing that ranges over runs or inputs.
