# Ring-buffer FIFO: a verified model

The repository implements one byte queue several times and surrounds it with tools that judge it. This project models
those parts in Dafny and proves that they fit together.

* **The driver.** `RingBuffer` is the circular buffer over an array, refined to a byte sequence (`Contents()`).
  `Device` is what one thread does while it holds the mutex: the blocking decision, the copy loops with failing user
  copies, and the control operations. `Serial` is the plain sequential queue both must look like. `Protocol` is the
  whole driver as a step system over any number of threads: wait conditions are read without the mutex and field by
  field, waiters enqueue themselves before their last check, signals may end any wait, and every user copy may fall
  short by any amount. `Section` shows that the copy loops and readiness checks of `Device` are critical sections of
  `Protocol`. `Wakeups` proves that no wake-up is lost, `Refinement` that every run is a run of one sequential queue in
  mutex order and that the byte totals balance, `Calls` that every system call, blocking ones included, is answered
  exactly once or given up to a signal, and that nobody is stuck. `Limits` holds the capacity range and the error codes.
* **The contract laboratory.** `Contract` is the reference model, `Backends` the lock-protected simulator with its
  injected faults, `Agreement` runs driver, simulator and reference model side by side, and `Runner` evaluates a
  scenario against the contract and reduces a failing one.
* **The linearizability checker.** `History` says declaratively what it means for recorded calls to have a legal
  explanation, `Search` is the depth-first search as a function together with its transition count, `Checker` the code
  with its validation, predecessor masks and budget, `Verdicts` what its answers mean in terms of the recorded numbers,
  `Trim` the cutting of failing histories at quiescent points, and `Recorder` the capture of histories from concurrent
  workers. `DriverRecorder` puts the step system `Protocol` behind that recorder: every such run refines one against an
  atomic device, and concurrent system calls on the driver itself are never called a failure.
* **The reducers.** `Workload` is the workload constructor with its cycle search, `Projection` the valid subsets,
  pruning and renumbering, `Trials` the statistics of repeated replays, `Reduction` the budgeted search of `reduce` and
  the checks that `verify` makes on its reports, `Replay` the reduction of concurrent workloads, `Selection` the
  vocabulary of deletions they share.
* **The frame stream.** `Frames` is the wire format, `FrameStream` the resynchronising validator as a function,
  `StreamState` the code that works on the shared buffer, `FrameVerdicts` which frames of any stream are accepted, said
  by its bytes, `FailureCount` the condition under which the failure counter does not depend on the reads, and
  `Delivery` the result for a whole stream. `LoadTest` puts the writer and reader threads with their two locks on top of
  the step system `Protocol` and proves that the verdict of the test is exact and that the test never gets stuck.

The main results are statements about every input, every run or every reachable state, for any number of threads and
histories of any length. The cap of 12 operations appears where the code checks it; no proof depends on it.

How the outside world enters: a user copy is a function giving the number of missing bytes of the k-th copy; allocation
success is a parameter; a clock is any nondecreasing sequence of readings; devices, adapters and evaluators are
functions that also receive the number of the run or trial, so that repeated trials may answer differently or raise, and
"deterministic" is a hypothesis that a lemma states where it needs it. Integers are unbounded except where the width
matters: 32-bit frame fields, the 64-bit capacity argument, `SIZE_MAX` in the stream growth. Python exceptions and C
error codes are values (`None`, `Rejected`, a negative return).

One property that might be expected is false of the code, and the model says exactly when it holds. The number of
validation failures depends on how reads cut a stream: the same forty stray bytes count once or twice
(`FrameStream.FailureCountDependsOnChunks`). It is independent of the reads exactly for the streams that
`FailureCount.Steady` describes, a condition on the bytes alone (`FailureCount.SteadyIsExact`): every run of stray bytes
meets the next magic within one header, or starts so close to the end that it cannot be counted twice. One read of
everything always counts the fewest (`FailureCount.AtOnceIsFewest`). The same condition is exact for reads of at most
`READ_CHUNK_SIZE` bytes (`FailureCount.SteadyIsExactForReads`). Whether the count is zero depends on the stream alone
(`FrameStream.FeedCountsUnclean`), and so do the accepted frames and their order
(`FrameStream.ChunkingDoesNotMatter`).

What the reducers report is said in terms of the answers they got: `Substantiated` in `Reduction` and `Replay`, and
`FailAlike` in `Runner`, name the operations that were executed, in what order, how often, and what follows from the
answers, without the functions that the code decides with. Which window is tried next is determined by the answers so
far (`Cursor` in `Selection`): no window is skipped or tried out of turn.

A reduction is 1-minimal unless its budget ran out. For a target that is not deterministic this is about trials that
were made and are listed in the evidence (`OneMinimal`); for a deterministic one it is about all future ones
(`Irreducible` in `Reduction`, `Runner` and `Replay`).

`dafny verify dfyconfig.toml` checks everything.

## Model

| member | source | states |
|---|---|---|
| RingBuffer.WindowAt | kernel/ringbuf_char_buffer.c:195-197 | element i of the queue is the cell at (read position + i) mod capacity |
| RingBuffer.WindowDrop | kernel/ringbuf_char_buffer.c:76-89 | advancing the read position by k around the ring drops exactly the k oldest bytes |
| RingBuffer.WindowExtend | kernel/ringbuf_char_buffer.c:114-125 | publishing the k cells after the newest byte appends exactly their contents |
| RingBuffer.WindowFrame | kernel/ringbuf_char_buffer.c:91-112 | writing outside the live cells leaves the queue as it was |
| RingBuffer.RingBuffer.ReadSpan | kernel/ringbuf_char_buffer.c:60-74 | the span is the longest contiguous prefix of the queue: it is empty only for an empty buffer, and it ends at the last byte or at the end of the array |
| RingBuffer.RingBuffer.Consume | kernel/ringbuf_char_buffer.c:76-89 | removes exactly the n oldest bytes, or all; positions stay consistent and are zero when empty |
| RingBuffer.RingBuffer.WriteSpan | kernel/ringbuf_char_buffer.c:91-112 | the span is the cells the next bytes will use, maximal up to the wrap, and no cell of it holds a stored byte |
| RingBuffer.RingBuffer.Scribble | kernel/ringbuf_char_buffer.c:148-167 | bytes put into the span without a commit never become part of the queue |
| RingBuffer.RingBuffer.Commit | kernel/ringbuf_char_buffer.c:114-125 | appends exactly what the first n free cells hold, never more than fits |
| RingBuffer.RingBuffer.Read | kernel/ringbuf_char_buffer.c:127-146 | moves exactly the longest prefix that the count allows, across the wrap, and touches no other destination byte |
| RingBuffer.RingBuffer.Write | kernel/ringbuf_char_buffer.c:148-167 | stores exactly the longest prefix that the count and the free space allow, across the wrap |
| RingBuffer.RingBuffer.Clear | kernel/ringbuf_char_buffer.c:169-177 | empties the queue and resets both positions |
| RingBuffer.RingBuffer.Resize | kernel/ringbuf_char_buffer.c:179-206 | an accepted resize keeps the byte sequence in new storage; a rejected one changes nothing; which error is returned when |
| Device.Device.CopySpanToUser | kernel/ringbuf_char.c:214-223 | one turn of the read loop removes exactly the bytes that reached the user |
| Device.Device.ReadLocked | kernel/ringbuf_char.c:214-233 | for every wrap position and fault pattern at most two copies are made, the bytes removed are the prefix delivered, and the amount is given by the faults |
| Device.Device.CopySpanFromUser | kernel/ringbuf_char.c:299-312 | one turn of the write loop appends exactly the bytes that arrived; cells scribbled by a failed copy stay unreadable |
| Device.Device.WriteLocked | kernel/ringbuf_char.c:298-323 | at most two copies, the bytes appended are the prefix that arrived, and the exit for an empty chunk is never taken |
| Device.Device.Read | kernel/ringbuf_char.c:161-243 | a nonempty read returns n > 0, -EFAULT, -EAGAIN, or 0 and then only when shut down and empty; with stored bytes the amount is fixed by the first span and the failing copies; with none the answer is fixed by the shutdown flag and the blocking mode; the outcome is a permitted event of the sequential queue and leaves its next state; it waits exactly when empty, open and blocking, with nothing changed |
| Device.Device.Write | kernel/ringbuf_char.c:245-333 | a nonempty write returns n > 0, -EFAULT, -EAGAIN, or -ENODEV and then only when shut down; with free space the amount is fixed by the first span and the failing copies; when closing or full the answer is fixed by the shutdown flag and the blocking mode; the outcome is a permitted event of the sequential queue and leaves its next state; it waits exactly when full, open and blocking, with nothing changed |
| Device.Device.IoctlClear | kernel/ringbuf_char.c:352-357 | empties the queue and starts a new generation |
| Device.Device.IoctlSetCapacity | kernel/ringbuf_char.c:378-402 | resizes in place or reports the first applicable error with everything unchanged; only success starts a new generation |
| Device.Device.IoctlSetMode | kernel/ringbuf_char.c:428-445 | sets the blocking mode or rejects unknown bits with everything unchanged |
| Device.Device.ShutDown | kernel/ringbuf_char.c:588-591 | marks the device as closing and starts a new generation |
| Device.TurnMoves | kernel/ringbuf_char.c:214-233 | the first failing copy ends the loop; a second turn only follows a full first span |
| Device.Device.NonblockingStep | kernel/ringbuf_char.c:161-333 | through a nonblocking descriptor without faults every operation answers and changes the queue as the contract says |
| Serial.FifoLaw | kernel/ringbuf_char.c:208-332 | in every run of the sequential queue, bytes accepted since the last CLEAR are the bytes delivered since then followed by the bytes stored |
| Protocol.LockStep | kernel/ringbuf_char.c:174-206 | every step keeps mutual exclusion: the owner is the one thread inside a critical section |
| Section.SectionMatchesLoop | kernel/ringbuf_char.c:214-323 | for every first span and fault pattern the steps of a critical section move the same bytes as the copy loop |
| Section.LogsTheOutcome | kernel/ringbuf_char.c:214-332 | the event that a copying section logs is the event that the return value of the call and the user buffer stand for |
| Section.DecideLogsTheOutcome | kernel/ringbuf_char.c:183-212 | a section that copies nothing logs end of file, -EAGAIN or -ENODEV exactly when the call returns that, and a call that waits logs nothing and has seen the generation of its section |
| Section.PermittedHappens | kernel/ringbuf_char.c:161-402 | the sequential queue permits nothing that the driver cannot do: whenever the mutex is free, an idle thread can log every permitted event of a call that asks for something, every shortfall of a user copy included, and leaves the queue that follows it |
| Wakeups.WaiterStep | kernel/ringbuf_char.c:193-199 | every step keeps: a waiter is a blocking call and has seen no generation from the future |
| Wakeups.ImprovementIsOwed | kernel/ringbuf_char.c:235-240 | whoever improves the device for one side owes that side a wake-up from the same step on |
| Wakeups.DebtsSurvive | kernel/ringbuf_char.c:325-330 | a wake-up that is owed stays owed until that queue is woken |
| Wakeups.NoImprovementNoUnease | kernel/ringbuf_char.c:71-88 | a wait condition read field by field cannot be missed unless the device improved after the read |
| Wakeups.WakeStep | kernel/ringbuf_char.c:71-88 | every step keeps: a waiter that has something to see coexists with a thread that owes its queue a wake-up |
| Wakeups.ModeStep | kernel/ringbuf_char.c:428-447 | every step keeps: a waiter of the current generation decided under the current blocking mode, unless a change is in progress |
| Wakeups.RunInv | kernel/ringbuf_char.c:161-333 | the wake-up, lock, mode and waiter invariants hold in every state of every run, for any number of threads |
| Wakeups.NoLostWakeup | kernel/ringbuf_char.c:193-240 | in every reachable state, a thread asleep although its wait condition holds coexists with a thread that owes that queue a wake-up |
| Wakeups.SettledSleepers | kernel/ringbuf_char.c:174-206 | once no wake-up is owed no reader sleeps over stored bytes, no writer over free space, nobody under NONBLOCK or after shutdown, and readers and writers are never asleep together |
| Refinement.LogStep | kernel/ringbuf_char.c:208-332 | every step keeps: the device is the sequential queue of the logged events plus the moves of the mutex owner |
| Refinement.EveryRunIsSequential | kernel/ringbuf_char.c:161-333 | whenever the mutex is free, the queue is what a sequential queue is after the logged events, all permitted, and bytes came out first in first out; that the events are exactly one for each call that was not interrupted is `Calls.OneAnswer` |
| Refinement.Balance | kernel/ringbuf_char.c:235-240 | what a step adds to bytes written it adds to bytes read, cleared or stored, once pending counter updates are counted |
| Refinement.TotalsAccountForBytes | kernel/ringbuf_char.c:214-240 | in every run without RESET_STATS, total written minus total read minus cleared bytes is the number of stored bytes once pending adds are counted |
| Calls.EveryStep | kernel/ringbuf_char.c:161-333 | whichever thread acts, a thread that has begun a call or control operation keeps it; or the step is its own and either gives the call up to a signal with nothing moved, or logs the one event that answers it |
| Calls.OneAnswer | kernel/ringbuf_char.c:161-333 | in every run, every call that was begun is still under way and unanswered, or was given up to a signal and is never answered, or has been answered by exactly one event; a call that waits and is woken is no exception |
| Calls.SignalsEndWaits | kernel/ringbuf_char.c:174-206 | a signal ends every wait, for the mutex or in a wait queue, and changes nothing but the thread; nobody who holds the mutex is disturbed |
| Calls.SleepEndsExactly | kernel/ringbuf_char.c:193-240 | a sleeper goes on just when its own queue is woken, and then tests its condition anew; a waiter that is not yet asleep remembers such a wake-up; nothing else that others do moves it |
| Calls.SomeoneGoesOn | kernel/ringbuf_char.c:161-333 | there is no deadlock: as long as a thread is in the driver and not asleep, some thread can go on |
| Calls.NobodyIsStuck | kernel/ringbuf_char.c:174-333 | in every reachable state, a thread whose call need not wait, with the mutex free for it, leaves the driver by at most 16 steps of its own with its call answered once, unless it waits and its queue is owed a wake-up |
| Contract.OneMore | lab/contract.py:65-94 | a longer operation list changes no earlier answer |
| Contract.ReferenceModel.Step | lab/contract.py:65-94 | the updating model computes the answers and states of the specification |
| Backends.SimulatedDevice.AppendBytes | lab/backends.py:42-48 | byte-by-byte appending stores exactly the longest prefix that fits |
| Backends.SimulatedDevice.PopBytes | lab/backends.py:54-58 | byte-by-byte popping returns exactly the oldest bytes, as many as there are up to the count |
| Backends.SimulatedDevice.Step | lab/backends.py:36-77 | the simulator is the contract except for the one answer its injected fault changes |
| Backends.FaultFreeAgrees | lab/backends.py:36-77 | without a fault the simulator answers every operation list as the contract |
| Backends.FaultsExactly | lab/backends.py:36-77 | each injected fault changes exactly this: false-eof answers an empty queue with end of file, reverse-read returns the oldest bytes back to front, resize-loss empties the queue of an accepted resize |
| Backends.EveryFaultIsVisible | lab/backends.py:50-71 | every injected fault changes the answers of some operation list |
| Agreement.Lockstep | lab/runner.py:25-33 | on every operation list the driver's nonblocking path, the simulator without faults and the reference model give the same answers and hold the same queue |
| Runner.Evaluate | lab/runner.py:20-46 | rejects exactly the invalid scenarios; otherwise passes, reports the exception, or reports the first difference from the contract with its position and history, and with a signature that `SignatureExactly` reads off the operation and the two answers |
| Runner.OutcomeExactly | lab/runner.py:20-46 | a run fails at k if and only if the device answers as the model up to k and differently at k; it passes if and only if all answers agree; the history holds the answers that were given and due |
| Runner.SignatureExactly | lab/runner.py:37-41 | the signature of a failure names the kind of the failing operation, exactly the components in which the two answers differ, and their two error codes |
| Runner.SameSignature | lab/runner.py:63-68 | two failing runs have the same signature if and only if they fail at operations of the same kind with the same differing components and error codes |
| Runner.NextAnswer | lab/contract.py:65-94 | the expected answer at a position is the reference model's answer after the operations before it |
| Runner.FaithfulAlwaysPasses | lab/runner.py:20-46 | a device that keeps the contract passes every valid scenario with a complete history |
| Runner.FaultFreeSimulatorPasses | lab/runner.py:20-46 | the simulator without faults passes every valid scenario |
| Runner.TruncationKeepsFailure | lab/runner.py:51-54 | on a deterministic device, cutting a failing run after the failure keeps its position and signature |
| Runner.TryDeletions | lab/runner.py:60-72 | a deletion is adopted only with the same signature; a sweep of single deletions that adopts nothing has refused them all; attempts stay within the budget |
| Runner.Shrink | lab/runner.py:55-76 | the loop terminates with part of the operations, still failing alike on a deterministic device, and 1-minimal unless the budget ran out; exactly the candidates of the schedule (`Stage`) were evaluated, in its order, until it stopped or the budget ran out |
| Runner.ReduceScenario | lab/runner.py:49-84 | refuses scenarios that do not fail; otherwise the result is part of the failing prefix, it is confirmed if and only if its confirmation fails at an operation of the same kind with the same differing components and error codes as the original (`FailAlike`), which is certain on a deterministic device, and no single operation can go unless the budget ran out, in the candidate runs that were made and, on a deterministic device, in any run |
| Runner.MinimalIsIrreducible | lab/runner.py:57-76 | on a deterministic device one refusal of each single deletion shows that no run of it can show the failure |
| Runner.MinimalFailsAtTheEnd | lab/runner.py:49-84 | a 1-minimal result on a deterministic device fails at its last operation |
| History.ForcedOrderIsAcyclic | lab/history.py:85-95 | on validated intervals the predecessor relation has no cycle, even with tied timestamps |
| History.StepwiseIsExplains | lab/history.py:103-121 | building an explanation call by call, each enabled in its turn, is the same as having a permutation that respects the forced order and replays to the observed results |
| History.QuiescentPrefixIsLinearizable | lab/history.py:13-38 | every quiescent prefix of a linearizable history is linearizable |
| Search.SearchIsExact | lab/history.py:103-121 | the search finds an order exactly when a legal explanation exists, and what it finds is one |
| Search.SolveComplete | lab/history.py:103-121 | if any legal order exists the search finds one, whatever the list order |
| Search.SolveCost | lab/history.py:103-121 | a failing search makes exactly one transition per attemptable call sequence, a successful one no more |
| Search.FailingCostIgnoresListOrder | lab/history.py:97-129 | the transition count of a failing search depends only on the set of calls |
| Search.PrefixAttempts | lab/history.py:97-129 | every attempt on a quiescent prefix is an attempt on the whole history |
| Search.PrefixCost | lab/history.py:97-129 | searching a quiescent prefix never takes more transitions than failing on the whole |
| Checker.ScreeningIsWellFormed | lab/history.py:53-76 | the validation loop with its sets accepts exactly the histories of nonnegative, ordered, distinct and completed events |
| Checker.VerdictIsExact | lab/history.py:97-129 | "pass" names an order that explains the history, "fail" means that none exists, for histories of any length |
| Checker.BudgetMonotone | lab/history.py:111-113 | explored transitions never exceed the budget and equal it on exhaustion; a conclusive verdict is repeated identically under every larger budget (a corollary of the exact transition count in `DepthFirst`) |
| Verdicts.LegalIsExplanation | lab/history.py:103-121 | an explanation is an order of all calls that keeps the recorded intervals and programs and in which a queue of bytes gives every recorded answer |
| Verdicts.CheckExactly | lab/history.py:41-132 | every answer of the checker, for every input, in terms of the recorded numbers: what is rejected, what is incomplete, when an order is named and when none exists |
| Checker.EligibleIsEnabled | lab/history.py:107-110 | the bit tests on masks select exactly the calls that nothing left over must precede |
| Checker.HistoryChecker.DepthFirst | lab/history.py:103-121 | the recursion with its shared counter raises exactly when the unbudgeted search needs more transitions than are left, and otherwise finds the same order at the same cost |
| Checker.HistoryChecker.FillPredecessors | lab/history.py:85-95 | the nested loop fills every mask with exactly the forced predecessors, or finds calls of one worker that overlap |
| Checker.HistoryChecker.CheckHistory | lab/history.py:41-129 | the whole checker, branch by branch, equals the specified verdict |
| Trim.SortedIsOrdered | lab/history.py:23 | the sorted history is in order of start time, worker and program position |
| Trim.CutIsValidated | lab/history.py:28-31 | every prefix of the sorted history, reindexed, passes the checker's validation |
| Trim.CutIsDecided | lab/history.py:26-32 | after an original "fail" no check of a quiescent cut raises or exhausts its budget; it decides whether the cut is linearizable |
| Trim.LargerCutsFail | lab/history.py:25-37 | every quiescent cut larger than a failing one fails too |
| Trim.CounterexampleRefutes | lab/history.py:13-38 | a cut without explanation refutes the full history |
| Trim.WholeCutFails | lab/history.py:25-38 | the last cut is the whole history, so the loop always finds a failing one |
| Trim.ReduceHistoryPrefix | lab/history.py:13-38 | after a "fail" the result is always a counterexample, the smallest failing quiescent cut, with its verdict, the original indexes of its events and one check for the whole and each quiescent cut up to it; the final inconclusive return is unreachable |
| Trim.TrimIsSmallest | lab/history.py:13-38 | the counterexample is the smallest set of calls that were over before every other call was invoked and that no legal order explains |
| Trim.OriginalsAreRecorded | lab/history.py:28-31 | the original index kept with an event of a cut leads back to the recorded event |
| Recorder.StepKeeps | lab/concurrency.py:38-60 | every step of workers, clock, device and recorder keeps the capture invariants |
| Recorder.CompletedIsValidated | lab/concurrency.py:38-73 | a completed capture passes every validation of the checker |
| Recorder.AppliedOrderExplains | lab/concurrency.py:38-60 | the order in which the device applied the calls explains the recorded history |
| Recorder.AtomicDeviceIsNeverAccused | lab/concurrency.py:25-73 | every completed run against the lock-protected simulator passes or exhausts the budget: never "fail", never an invalid capture |
| Recorder.HistoryIsTruthful | lab/concurrency.py:38-60 | every recorded event tells what happened: the operation, its worker and place, the clock at its invocation, the answer of the device when it was applied later, and the clock at its return later still |
| Recorder.RecorderGoesOn | lab/concurrency.py:38-60 | a run never gets stuck: the first unfinished operation of every worker can always go on |
| Recorder.CompletedIsNeverAccused | lab/concurrency.py:67-73 | every completed capture that keeps the invariants passes or exhausts the budget |
| DriverRecorder.EventIsContract | kernel/ringbuf_char.c:208-332 | the event that a faultless nonblocking call logs answers and changes the queue as the contract says |
| DriverRecorder.PassiveIsContract | lab/backends.py:138-159 | calls that change nothing, empty transfers, refused capacities and the capacity query, answer as the contract says |
| DriverRecorder.ServingStep | kernel/ringbuf_char.c:161-333 | a thread inside the driver goes on serving its operation until it logs the one event of that operation |
| DriverRecorder.StepKeeps | lab/concurrency.py:38-60 | every step of workers, driver threads, clock and recorder keeps: the log order is an order in which an atomic device could have applied the calls |
| DriverRecorder.RunIsAtomic | lab/concurrency.py:38-60 | every run against the driver refines a run against an atomic device: operations are invoked, return and are recorded at the same times, each takes effect at once when it is logged, and the histories are equal |
| DriverRecorder.HistoryIsTruthful | lab/concurrency.py:38-60 | every event recorded from the driver tells what happened in that run against an atomic device |
| DriverRecorder.RunGoesOn | lab/concurrency.py:38-60 | a run against the driver never gets stuck before every operation is recorded |
| DriverRecorder.DriverIsNeverAccused | lab/concurrency.py:25-73 | every completed run against the driver, with any interleaving of its threads, passes or exhausts the budget: never "fail", never an invalid capture |
| Workload.ScheduleMeansAcyclic | lab/dradd.py:65-86 | a total order that satisfies the required edges and every worker's program rules out cycles |
| Workload.ParentsFirstIsSchedule | lab/dradd.py:65-71 | linking each operation to its worker's previous one is enough: an order with all links satisfied keeps every program whole |
| Workload.ConflictIsCycle | lab/dradd.py:61-64 | what the early check within one worker rejects is cyclic anyway |
| Workload.ScheduleRuns | lab/dradd.py:65-86 | contradicting no constraint is starting the operations in an order that keeps every program and every hard or required prerequisite |
| Workload.CycleSearch.Visit | lab/dradd.py:72-83 | the depth-first visit fails only on a real cycle, and otherwise leaves the node after everything it depends on |
| Workload.CollectEdges | lab/dradd.py:46-64 | the edge loop rejects only workloads that are malformed or cyclic, and records exactly the required prerequisites |
| Workload.AddPrograms | lab/dradd.py:65-71 | the searched graph is the prerequisites plus the worker's previous operation |
| Workload.Construct | lab/dradd.py:35-86 | a workload is accepted exactly when it is well formed and edges plus programs contain no cycle, and also exactly when its sizes, owners and edges are in range and some order of the operations keeps every program and starts no operation before one of its hard or required prerequisites |
| Projection.ListingIsAscending | lab/dradd.py:88-91 | comparing with the sorted set accepts exactly the strictly ascending indexes of operations |
| Projection.ValidExactly | lab/dradd.py:88-91 | indexes are valid exactly when they are strictly ascending, at least one, and every hard or required prerequisite of a kept operation is kept |
| Projection.PruneIsGreatest | lab/dradd.py:93-100 | pruning yields the greatest subset closed under prerequisites |
| Projection.PruneLaws | lab/dradd.py:93-100 | pruning is idempotent, monotone and leaves closed sets alone |
| Projection.Prune | lab/dradd.py:93-100 | the fixed-point loop terminates with the sorted greatest closed subset, which is valid unless empty |
| Projection.ProjectionKeepsConstraints | lab/dradd.py:102-114 | among the kept operations a projection has exactly the constraints of the source, required edges and program order |
| Projection.ProjectionIsAccepted | lab/dradd.py:102-114 | the constructor accepts every projection of an accepted workload onto a valid index set |
| Projection.ProjectionIsExact | lab/dradd.py:102-114 | a workload is the projection if and only if it holds exactly the kept operations with their owners, in order, the worker count, the kept indexes as original ids, and, in order, the edges between kept operations with their kinds and ends renumbered |
| Projection.ProjectTwice | lab/dradd.py:102-114 | projecting twice is projecting once onto the composed indexes, which are valid, apart from the recorded original indexes (what one projection holds is `ProjectionIsExact`) |
| Projection.WholeIsValid | lab/dradd.py:160 | the whole workload is a valid candidate |
| Trials.TrialSummary | lab/dradd.py:117-130 | the counting loop yields the number of trials of each category |
| Trials.EveryTrialIsCounted | lab/dradd.py:117-130 | every trial is counted in exactly one category |
| Trials.SummaryExactly | lab/dradd.py:117-130 | each count is the number of trials with that status and signature |
| Trials.AcceptedExactly | lab/dradd.py:133-137 | a group is accepted if and only if all its trials are conclusive, at least one and at least the required part of them fail with the target signature, and the bound, if there is one, is met |
| Trials.RejectionExactly | lab/dradd.py:140-147 | the reason given for a rejection is the worst thing that happened in one of the trials |
| Trials.AcceptedIsConclusive | lab/dradd.py:133-137 | counts that leave no inconclusive trial and one that reproduces are those of conclusive trials only, one of which reproduces (the whole decision is `AcceptedExactly`) |
| Trials.UnanimousGroup | lab/dradd.py:133-137 | a group of agreeing trials is accepted exactly when they reproduce and the interval is good enough |
| Reduction.DeterministicGroup | lab/dradd.py:179-205 | on a deterministic target the decision about a candidate does not depend on when or how often it is replayed |
| Reduction.WithoutIsSmaller | lab/dradd.py:220-222 | a deletion, pruned or not, leaves strictly fewer operations |
| Reduction.Search.Replay | lab/dradd.py:179-205 | a group consists of exactly n fresh executions with consecutive seeds, is journaled with its statistics, and is accepted by them |
| Reduction.Search.Consider | lab/dradd.py:223-245 | each evaluation counts as one attempt and adds one group: an unexecuted one for an invalid candidate, one of fresh trials otherwise; it stops exactly when the confirmation would become unaffordable or the adapter breaks, and adopts exactly what was accepted |
| Reduction.Search.Sweep | lab/dradd.py:215-244 | a sweep that adopts something shrinks the workload; one of single deletions that adopts nothing and exhausts nothing has refused each of them |
| Reduction.Search.Shrink | lab/dradd.py:211-250 | the loop terminates by size and granularity and ends 1-minimal unless a budget ran out |
| Reduction.Search.Run | lab/dradd.py:207-273 | for arbitrary outcomes the report passes every check of verify, stays within both budgets, counts its invalid candidates and its groups correctly, and is decided by its initial and confirmation groups |
| Reduction.Reduce | lab/dradd.py:150-273 | refuses exactly the illegal calls; when the adapter's own validation breaks, names that evaluation and the groups journaled before it; otherwise, for arbitrary outcomes: reserved confirmation, budgets, valid nonempty result, 1-minimality, certain confirmation for deterministic targets, and a report that is `Substantiated` |
| Reduction.DecidedIsSubstantiated | lab/dradd.py:179-273 | every group tried the whole workload, the window that is next in the schedule deleted from what was accepted last (and pruned for guided strategies), or that itself at the end; the search ends when the schedule does, or a budget is used up and then it says so; its trials are the answers of the adapter to a workload with exactly those operations, with consecutive seeds; it is accepted if and only if enough of them reproduce, and otherwise gives the worst reason; the delivered workload is the one accepted last |
| Reduction.ConfirmedIsFrequent | lab/dradd.py:179-273 | the confirming trials of a confirmed report, and the trials of every adopted candidate, are conclusive and reproduce at least at the required rate; for single, chunk, legacy and dependency every trial of an adopted candidate reproduces |
| Reduction.MinimalIsIrreducible | lab/dradd.py:207-250 | for a deterministic target a search that was not cut off leaves no single operation whose deletion, followed by pruning for guided strategies, is valid and still reproduces |
| Reduction.VerifyJob | lab/research.py:60-86 | the loop over a report decides exactly the per-job checks: projection, nothing invalid executed, statistics recomputed, executions summed, final group |
| Selection.SelectTwice | lab/dradd.py:102-106 | selecting from a selection is selecting the composed positions |
| Selection.PartMembers | lab/runner.py:61 | what deletions leave is no longer than the whole and has only its members |
| Selection.DeletedIsSelection | lab/replay.py:63-67 | deleting a window is selecting the positions outside it |
| Selection.WidthIsCeiling | lab/dradd.py:214 | the windows of a sweep are ceil(size / granularity) wide |
| Replay.ProgramsAreParts | lab/replay.py:19-27 | every worker's program after a reduction is part of its original program: no operation changes worker or place |
| Replay.DeterministicHolds | lab/replay.py:44-52 | with a deterministic evaluator repeated groups of trials decide alike |
| Replay.MinimalIsIrreducible | lab/replay.py:57-80 | with a deterministic evaluator one refusal of each single deletion shows that no group of trials can uphold it |
| Replay.KeptIsShorter | lab/replay.py:62-67 | a reduction only keeps operations of the original and no more of them |
| Replay.Log.Replay | lab/replay.py:44-52 | a candidate is accepted exactly when every fresh trial fails with the target reason; the evidence lists those trials; when a trial raises, the first such trial is reported and nothing is added |
| Replay.ReportsExactly | lab/replay.py:44-52 | an entry of the evidence holds the answers of the evaluator to this very scenario, and counts those that fail for lack of an ordering and those that are inconclusive |
| Replay.EndedIsSubstantiated | lab/replay.py:54-85 | every group tried the whole workload, the window that is next in the schedule deleted from what was upheld last, or that itself at the end; the search ends when the schedule does or the budget is used up; a candidate is upheld if and only if every answer fails for lack of an ordering; the delivered workload is the one upheld last, and the outcome is read off the last answers |
| Replay.Log.TryDeletions | lab/replay.py:62-76 | only accepted deletions are adopted, attempts stay within the budget, and a sweep of single deletions that adopts nothing has refused them all |
| Replay.Log.Shrink | lab/replay.py:55-80 | the loop terminates with a nonempty part of the workload that some group of trials upheld, 1-minimal unless the budget ran out |
| Replay.ReduceConcurrent | lab/replay.py:19-104 | refuses exactly the illegal calls; when the evaluator raises, names that trial, the first of its group to raise, and the complete groups before it; otherwise the evidence starts with the whole workload and ends with fresh trials of the result, which alone decide the outcome; one group per attempt; 1-minimal unless the budget was used up |
| Replay.NothingToReproduce | lab/replay.py:54-85 | a device that no evaluation accuses yields no reproducer and is not reduced |
| Frames.Be32RoundTrip | userspace/concurrent_test.c:115-127 | a 32-bit field reads back from its four big-endian bytes |
| Frames.BuiltReadsBack | userspace/concurrent_test.c:144-163 | every field of a built frame reads back and its checksum is that of its payload |
| Frames.KnownFrame | userspace/concurrent_test.c:115-163 | the frame of 22 bytes that writer 1 sends with sequence number 2, byte by byte |
| Frames.PutBe32 | userspace/concurrent_test.c:115-121 | writes the big-endian bytes and nothing else |
| Frames.FrameChecksum | userspace/concurrent_test.c:129-142 | the loop computes the specified running checksum |
| Frames.BuildFrame | userspace/concurrent_test.c:144-163 | fills the buffer with the frame of this writer, sequence number and size |
| FrameStream.HeadIsStable | userspace/concurrent_test.c:284-332 | more input never changes a head that could be decided |
| FrameStream.ScanContinues | userspace/concurrent_test.c:348-360 | scanning is incremental: the undecided tail and more input give the rest of the frames |
| FrameStream.ScanSkips | userspace/concurrent_test.c:286-305 | skipping to the next magic, or keeping the last three bytes, loses no frame |
| FrameStream.DrainFollowsScan | userspace/concurrent_test.c:270-346 | the validator's loop accepts exactly the frames of the byte-by-byte scan, in order |
| FrameStream.FeedFollowsScan | userspace/concurrent_test.c:348-360 | feeding chunks accepts exactly the frames of the joined stream |
| FrameStream.ChunkingDoesNotMatter | userspace/concurrent_test.c:270-360 | for every stream, also corrupt ones, and every two ways of cutting it into reads, the same frames are accepted in the same order, with the same marks and the same count |
| FrameStream.FeedCountsUnclean | userspace/concurrent_test.c:286-342 | whether any failure is counted depends on the stream alone, and is said by its bytes |
| FrameStream.FailureCountDependsOnChunks | userspace/concurrent_test.c:290 | how many failures are counted does depend on the chunks: a concrete stream counted once or twice |
| FrameVerdicts.ScanFindsFrames | userspace/concurrent_test.c:270-332 | the scan finds a frame exactly where its magic, length field and bytes stand and no earlier frame covers it, reading writer, sequence number and checksum from their places |
| FrameVerdicts.WinnersExactly | userspace/concurrent_test.c:327-342 | among the scanned frames the winners are those whose checksum field is the checksum of their payload, whose writer and sequence number are in range, and that no earlier such frame of their slot precedes |
| FrameVerdicts.VerdictsExactly | userspace/concurrent_test.c:270-360 | for every stream and every way of cutting it into reads, the accepted frames are exactly the winners, in order; each is counted once; a slot is marked if and only if an intact frame in range claims it; every other scanned frame is counted as a failure, and for packed frames nothing else is |
| FrameVerdicts.EveryDropCounts | userspace/concurrent_test.c:284-342 | what one turn of the validator drops is an accepted frame, or is counted as exactly one failure |
| FailureCount.SteadyIsExact | userspace/concurrent_test.c:270-360 | the failure count is the same for every two ways of cutting a stream if and only if the stream is steady, a condition on its bytes |
| FailureCount.SteadyCount | userspace/concurrent_test.c:286-342 | a steady stream is counted as if it had arrived in one read |
| FailureCount.UnsteadyCut | userspace/concurrent_test.c:286-305 | every other stream has a cut, one header behind the start of a long stray run, that counts exactly one failure more |
| FailureCount.SteadyIsExactForReads | userspace/concurrent_test.c:430-449 | the same holds of reads that are limited to READ_CHUNK_SIZE bytes, or to any size from 37 bytes up |
| FailureCount.UnsteadyReads | userspace/concurrent_test.c:286-305 | every other stream can be read in two ways, both in reads of limited size, that differ by exactly one failure |
| FailureCount.AtOnceIsFewest | userspace/concurrent_test.c:348-360 | however the reads cut any stream, they count at least what one read would have counted |
| StreamState.SharedState.EnsureStreamCapacity | userspace/concurrent_test.c:222-245 | growth keeps the buffered bytes and makes room, or fails and changes nothing |
| StreamState.SharedState.FindMagicOffset | userspace/concurrent_test.c:247-257 | finds the first magic after the start, or reports that there is none |
| StreamState.SharedState.ConsumeStream | userspace/concurrent_test.c:259-268 | drops exactly the first bytes of the buffer |
| StreamState.SharedState.ConsiderFrame | userspace/concurrent_test.c:327-342 | marks the slot of an acceptable frame once, and counts every other frame as a failure; which frames these are is said by their bytes in `FrameVerdicts.VerdictsExactly` |
| StreamState.SharedState.ValidateAvailableFrames | userspace/concurrent_test.c:270-346 | the in-place loop is the specified drain of the buffer |
| StreamState.SharedState.AppendAndValidate | userspace/concurrent_test.c:348-360 | a read is appended and drained, also when the test is already stopping; when memory runs out one failure is counted and the test stops |
| Delivery.BuiltIsWhole | userspace/concurrent_test.c:144-163 | a built frame at the head of any stream is recognised whole and intact |
| Delivery.SlotsDiffer | userspace/concurrent_test.c:330-331 | writer * messages + sequence is injective on legal frames |
| Delivery.SlotIsReached | userspace/concurrent_test.c:330-331 | every slot belongs to a legal frame |
| Delivery.StreamVerdicts | userspace/concurrent_test.c:270-360 | distinct whole frames in any order and any chunks leave no failure and an empty buffer |
| Delivery.EveryFrameArrives | userspace/concurrent_test.c:270-360 | any interleaving of all frames of all writers, read in any chunks, ends with every slot marked, every frame accepted once and in stream order, no failure and an empty buffer |
| LoadTest.ServingStep | kernel/ringbuf_char.c:161-333 | a step of a nonblocking call, also one with failing user copies, goes on, is interrupted before anything moved, or logs the one event of the call |
| LoadTest.StepKeeps | userspace/concurrent_test.c:388-480 | every step of writers, readers, their two locks and the driver keeps: as long as nothing has failed, what the device accepted is the frames in lock order without the part still to be sent, and the validator was fed what the device delivered |
| LoadTest.NothingIsCounted | userspace/concurrent_test.c:388-480 | in every state of every run, as long as no call and no allocation has failed, no failure is counted and nobody is told to stop |
| LoadTest.CallsAskFor | userspace/concurrent_test.c:392-456 | a writer asks to send all that is left of its frame, a reader asks for up to 4096 bytes |
| LoadTest.CountsStep | userspace/concurrent_test.c:392-422 | what a writer has sent is what the device has accepted; a frame is completed just when all of it is accepted, and given up only after a failed call or when told to stop |
| LoadTest.TestGoesOn | userspace/concurrent_test.c:388-480 | in every state of every run, until every thread has left its loop, some thread can go on |
| LoadTest.VerdictIsExact | userspace/concurrent_test.c:686-725 | a finished test passes if and only if no call and no allocation has failed and the readers have emptied the device; then every frame of every writer was validated once, in the order in which the writers got the lock |

## Left out

- Registration, module start and unwinding, logging, `poll`, `open` and `release`, GET_STATS and its layout, and the call, failure and block counters: kernel interface plumbing without protocol content.
- NULL buffers and freed storage: a `RingBuffer` always has its array.
- The CPU memory model: each field of a wait condition is read atomically, in the order the code names it.
- Fairness: no scheduler is modelled. That a thread can go on, and alone leaves the driver, is stated about reachable states.
- Wrap-around of the 64-bit counters and of the generation.
- Allocation beyond "granted or not"; a failed resize or stream growth changes nothing.
- Wilson intervals: the lower bound is an arbitrary function of the two counts; frequencies are exact rationals.
- JSON typing, unknown keys and hexadecimal text: operations, edges, trials and results are datatypes, payloads are byte sequences; an edge kind is always a known one.
- Bit masks of the checker are sets of positions.
- Timing fields, metadata, checkpoints and derived totals in reports.
- Other outcomes of the recorder (exceptions in workers, among them system calls that end with EINTR, ENOMEM, ENODEV or EIO, barrier time-outs, jitter): runs that complete are modelled.
- Opening, closing and restoring the device in the Linux back end, command lines, benchmarks, experiments, report rendering, file integrity hashes and the holdout trials of `verify`: input and output.
- The load test before its threads run (argument parsing, failing `malloc`, `open` and `pthread_create`), its idle limit and its statistics: a reader may stop at any time, and a thread that never starts is not modelled.
- Random workload generation: workloads and schedules are arbitrary.
- Exceptions of the checkpoint callback and of the adapter's metadata in `reduce`.
