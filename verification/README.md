# AstraLib in Dafny

A model of the concurrent core of AstraLib, a header-only C++ library, and proofs of what its
protocols promise in every interleaving, for any number of threads and runs of any length:

- the ticketed multi-producer multi-consumer ring (`AtomicRingBuffer`),
- the single-producer single-consumer ring (`spscRingBuffer`),
- the index pool built on the first ring (`ThreadSafeIndexPool`),
- the futex gate and the counting futex (`ThreadGate`, `AtomicFutex`),
- the thread pool, its dispatcher, its workers and its destructors (`ThreadPool`, `Worker`).

Every protocol is a state machine with one atomic operation or one plain memory access per step, under
sequentially consistent interleaving. A payload is a sequence of words stored and copied one word per
step, so that "no torn read" is proved and not assumed. The operations of an object are also given in
the program's own form, as classes whose methods update arrays and fields in place; there a method
parameter (`env`) is an arbitrary schedule of what the other threads do between its own accesses, and
`patience` bounds how long a blocked call spins before it reports that it is still spinning.

| file | content |
|---|---|
| `Bits.dfy` | payloads, slots, bit masks, the power-of-two test, wrap-around |
| `Fifo.dfy` | the sequential queue that both rings are compared with |
| `Ring.dfy` | the multi-producer multi-consumer ring and its inductive invariant |
| `RingFifo.dfy` | linearizability, real-time order and per-thread order |
| `RingSafety.dfy` | slot exclusivity, no tearing, backlog, why the size must be at least two |
| `RingProgress.dfy` | rank and exact characterisation of blocking |
| `RingWrap.dfy` | the ring on 64-bit words |
| `RingWrapExact.dfy` | the bound under which wrap-around is harmless is exact |
| `RingReset.dfy` | reset against construction |
| `RingBuffer.dfy` | the ring as an object |
| `IndexPool.dfy` | the index pool, machine and object |
| `Spsc.dfy` | the single-producer single-consumer ring, machine and object |
| `Futex.dfy` | kernel queue, thread gate, counting futex |
| `ThreadPool.dfy` | the thread pool machine and its invariant |
| `ThreadPoolInvariant.dfy` | every step of every thread keeps that invariant |
| `ThreadPoolTheorems.dfy` | conservation, wake-ups, handoff, quiescence, shutdown |
| `ThreadPoolProgress.dfy` | a rank that bounds all work, and termination |
| `ThreadPoolStarvation.dfy` | runs in which empty tasks starve the pool |
| `ThreadPoolOrder.dfy` | variants of the pool with accesses exchanged or left out, and the runs in which they lose tasks |
| `DispatcherScan.dfy` | the round-robin search for a free worker, as loops |

Preconditions that the program needs and the model states: the ring size passes the compile-time
power-of-two test and is at least two, and the batch size fits an `int`; clients of the index pool give
back only what they hold; pool tasks return and do not call `assignTask` on their own pool; no `assignTask`
call is in flight when destruction begins; clearing the ring and re-initializing the index pool happen with
nothing in flight, and the latter with nothing held.

`isEmpty` is two loads, write counter first, in the object and in the pool. A negative count of
`batchDequeue` is compared as an unsigned 64-bit number, as in the program, and so takes a whole batch. A
task whose first word is null is an empty one; the worker that gets it never frees itself.

Statements that the code does not meet in general are settled exactly:

- A gate is free of lost wake-ups if and only if at most one thread waits on it (`GateSoundIffSingleWaiter`),
  which is how the pool uses it.
- k wakes of the counting futex release k of the earlier waiters in all runs if and only if no thread may
  start waiting in between or there is no second thread (`ReleasesIffNoRival`); in general they release all
  but as many as were taken by newcomers (`WakesReleaseWaiters`).
- A pool at rest has executed a task if and only if the task has a target and fewer empty tasks than there
  are workers were submitted before it (`PoolQuiesces`). Without empty tasks that is every task
  (`PoolRunsEverything`).
- A pool can be destroyed in every schedule if and only if no task was submitted after as many empty tasks
  as there are workers (`DestructionIsSafeIff`): a dispatcher that searches among lost workers does not look
  at the stop flag. For every number of workers there is a run to such a pool (`EmptyTasksStarve`).
- After the index pool has been re-initialized, no index ever has two holders if and only if none was held
  (`RefillIsExclusiveIff`).
- With at most 2^64 / size dequeues in flight, the ring on 64-bit words behaves as on unbounded tickets if and
  only if at most 2^64 / size enqueues are in flight, and conversely (`WrapBoundIsExact`).
- `isEmpty` that answers "empty" had an empty queue at one of its two loads, unless others both enqueued and
  dequeued in between; then it may have had none (`EmptyWithoutEmptyQueue`).

## Model

| member | source | states |
|---|---|---|
| Bits.SizeTestIsPowerOfTwo | include/AstraLib/Buffers/atomicRingBuffer.hpp:22 | the compile-time test accepts exactly the powers of two |
| Bits.MaskIsSlot | include/AstraLib/Buffers/atomicRingBuffer.hpp:37 | masking a ticket with size - 1 gives its slot, for every power-of-two size and every ticket |
| Bits.SlotIsModulo | include/AstraLib/Buffers/atomicRingBuffer.hpp:37 | the slot of a ticket is its remainder modulo the size |
| Fifo.FirstInFirstOut | include/AstraLib/Buffers/atomicRingBuffer.hpp:35-65 | in every legal sequential history, what was there plus what was put is what was taken plus what is left, in order |
| Ring.InitInv | include/AstraLib/Buffers/atomicRingBuffer.hpp:29-33 | the constructed ring, whatever its slots hold, satisfies the slot and ticket invariant |
| Ring.PublishKeepsInv | include/AstraLib/Buffers/atomicRingBuffer.hpp:42 | the publishing store keeps the invariant, in particular for all other tickets of the same slot |
| Ring.ReleaseKeepsInv | include/AstraLib/Buffers/atomicRingBuffer.hpp:61-64 | the releasing store keeps the invariant and hands the slot to the ticket one size later |
| Ring.FillerOwnsSlot | include/AstraLib/Buffers/atomicRingBuffer.hpp:38-42 | an enqueue past its guard shares its slot with no unread value and no other enqueue past its guard |
| Ring.CopierOwnsSlot | include/AstraLib/Buffers/atomicRingBuffer.hpp:58-63 | a dequeue past its guard shares its slot with no enqueue past its guard and no other unread value |
| Ring.RunKeepsInv | include/AstraLib/Buffers/atomicRingBuffer.hpp:35-65 | the invariant holds in every state of every run of any number of threads |
| RingFifo.RingLinearizes | include/AstraLib/Buffers/atomicRingBuffer.hpp:35-65 | every run linearizes to a sequential queue: enqueues at their claim, dequeue t at the later of the two claims of t; a returned dequeue t has the value submitted under t, and its point lies inside its interval |
| RingFifo.PointsInIntervals | include/AstraLib/Buffers/atomicRingBuffer.hpp:35-65 | at every moment of every run the history so far is a beginning of the final one and contains the points of all operations that have returned and of none that has not claimed its ticket |
| RingFifo.RealTimeOrder | include/AstraLib/Buffers/atomicRingBuffer.hpp:35-65 | an operation that returned before another claimed its ticket has a point in the history, and it comes first |
| RingFifo.ConsumerSeesProducerOrder | include/AstraLib/Buffers/atomicRingBuffer.hpp:35-65 | each consumer receives each producer's items in the order in which they were sent |
| RingSafety.SlotExclusive | include/AstraLib/Buffers/atomicRingBuffer.hpp:12-63 | no two operations past their guard share a slot, no sequence number lets a producer and a consumer pass there, a reader finds the whole payload, a writer overwrites only returned values |
| RingSafety.BacklogBound | include/AstraLib/Buffers/atomicRingBuffer.hpp:36-63 | -C <= W - R <= size + P for P enqueues and C dequeues in flight, and at most size published values are unreleased |
| RingSafety.SizeTwoIsNeeded | include/AstraLib/Buffers/atomicRingBuffer.hpp:23 | all runs keep unread values safe if and only if the size is at least two |
| RingSafety.SizeOneOverwrites | include/AstraLib/Buffers/atomicRingBuffer.hpp:23 | with size one, a concrete run overwrites a published unread value |
| RingProgress.ClaimFreeRunRank | include/AstraLib/Buffers/atomicRingBuffer.hpp:36-64 | without new claims the rank counts down exactly with the productive steps of any schedule |
| RingProgress.StuckIff | include/AstraLib/Buffers/atomicRingBuffer.hpp:36-63 | nothing in flight can move if and only if the enqueues in flight are [R + size, W) and the dequeues in flight are [W, R); then all enqueues are done or all dequeues are |
| RingProgress.BlockingIsExact | include/AstraLib/Buffers/atomicRingBuffer.hpp:36-63 | from every reachable state some schedule drains the ring, every schedule makes at most Rank productive steps, and all end with the same operations blocked |
| RingWrap.WriterLag | include/AstraLib/Buffers/atomicRingBuffer.hpp:36-38 | the sequence number an unpublished enqueue looks at is behind its ticket by less than P * size |
| RingWrap.ReaderLag | include/AstraLib/Buffers/atomicRingBuffer.hpp:56-58 | the sequence number an unreturned dequeue looks at is behind the awaited one by less than C * size |
| RingWrap.WrapIsHarmless | include/AstraLib/Buffers/atomicRingBuffer.hpp:36-63 | the program on 64-bit counters with masked indices has exactly the runs of the ring on unbounded tickets in which P * size and C * size stay within 2^64, and ends them in the wrapped state |
| RingWrapExact.WrapBoundIsExact | include/AstraLib/Buffers/atomicRingBuffer.hpp:36-63 | with at most p enqueues and 2^64 / size dequeues in flight the 64-bit program takes the ring's steps in every reachable state if and only if p <= 2^64 / size, and the same with enqueues and dequeues exchanged |
| RingWrapExact.EnqueuePassesTooEarly | include/AstraLib/Buffers/atomicRingBuffer.hpp:36-40 | a wrapped write ticket passes the guard meant for the enqueue one modulus older, if that one is still waiting |
| RingWrapExact.DequeuePassesTooEarly | include/AstraLib/Buffers/atomicRingBuffer.hpp:56-60 | a wrapped read ticket passes the guard meant for the dequeue one modulus older, if that one has not returned |
| RingReset.ResetIsFresh | include/AstraLib/Buffers/atomicRingBuffer.hpp:67-72 | every run after a reset, at any fill level and with any stale slots, is a run from the constructor with the same results, and conversely |
| RingBuffer.AtomicRingBuffer.PrepareBuffer | include/AstraLib/Buffers/atomicRingBuffer.hpp:29-33 | the loop leaves slot i expecting ticket i |
| RingBuffer.AtomicRingBuffer.Index | include/AstraLib/Buffers/atomicRingBuffer.hpp:37 | the masked index is the slot of the ticket |
| RingBuffer.AtomicRingBuffer.Enqueue | include/AstraLib/Buffers/atomicRingBuffer.hpp:35-53 | against any schedule of the others, the call follows a legal run, its value stands under its ticket and is published if the call returns; it returns if its slot is free when it starts |
| RingBuffer.AtomicRingBuffer.Dequeue | include/AstraLib/Buffers/atomicRingBuffer.hpp:55-65 | against any schedule of the others, a call that returns has the value submitted under its own ticket, and a call whose value is published when it starts returns |
| RingBuffer.AtomicRingBuffer.BatchDequeue | include/AstraLib/Buffers/atomicRingBuffer.hpp:104-117 | for a single consumer and any schedule of the producers: the next items of the queue in order at positions 0 .. n - 1, nothing else written, the rest still queued in order; n is min(count, batch size) (a whole batch for a negative count) when the call returns, and at least the number of items published at its start, up to that count |
| RingBuffer.AtomicRingBuffer.Clamp | include/AstraLib/Buffers/atomicRingBuffer.hpp:105 | the unsigned 64-bit comparison of the signed count leaves counts from zero to the batch size alone and makes a whole batch of all larger and all negative ones |
| RingBuffer.AtomicRingBuffer.IsEmpty | include/AstraLib/Buffers/atomicRingBuffer.hpp:119-121 | with the others acting between the two loads: true exactly if the submissions up to the first load are what is claimed by the second; then the queue was empty at one of the two, unless others both enqueued and dequeued in between; for the only consumer, false means that an item is there |
| RingBuffer.EmptyWithoutEmptyQueue | include/AstraLib/Buffers/atomicRingBuffer.hpp:119-121 | from every constructed ring, a run in which the two loads find equal counters although the queue is never empty from the first to the second |
| RingBuffer.AtomicRingBuffer.ClearBuffer | include/AstraLib/Buffers/atomicRingBuffer.hpp:67-72 | with nothing in flight, the object becomes a constructed ring with stale slots |
| RingBuffer.RoomMeansGuard | include/AstraLib/Buffers/atomicRingBuffer.hpp:36-40 | with nothing in flight and fewer than size items queued, the next enqueue does not spin |
| RingBuffer.PublishedMeansGuard | include/AstraLib/Buffers/atomicRingBuffer.hpp:56-60 | a value published at any earlier moment lets its dequeue pass the guard |
| RingBuffer.FreedMeansGuard | include/AstraLib/Buffers/atomicRingBuffer.hpp:36-40 | a slot freed at any earlier moment lets the next enqueue on it pass the guard |
| IndexPool.GiveBackKeepsPartition | include/AstraLib/Pools/threadSafeIndexPool.hpp:27-29 | giving back a held index moves it from its holder into the ring and keeps the partition |
| IndexPool.ReturnKeepsPartition | include/AstraLib/Pools/threadSafeIndexPool.hpp:22-25 | a returning dequeue moves one index from the ring to one holder and keeps the partition |
| IndexPool.PoolIsExclusive | include/AstraLib/Pools/threadSafeIndexPool.hpp:16-29 | in every run no index has two holders, held and travelling indices partition {0 .. size - 1}, no returnIndex is ever left blocked, and a getIndex is left blocked only when every index is held |
| IndexPool.RefillIsExclusiveIff | include/AstraLib/Pools/threadSafeIndexPool.hpp:32-36 | after a re-fill, for clients that hold existing indices once each: no run ever gives an index two holders if and only if clients hold none |
| IndexPool.SecondHolder | include/AstraLib/Pools/threadSafeIndexPool.hpp:22-36 | a run in which an index that was held over a re-fill gets a second holder |
| IndexPool.ThreadSafeIndexPool.InitializeIndexes | include/AstraLib/Pools/threadSafeIndexPool.hpp:16-20 | the fill never spins and leaves ticket t carrying index t, for t below the size |
| IndexPool.ThreadSafeIndexPool.GetIndex | include/AstraLib/Pools/threadSafeIndexPool.hpp:22-25 | a call that returns has the index submitted under its own ticket, and a call whose index is in the ring when it starts returns, whatever the others do; if clients give back only what they hold during the call, the index had no holder and now has exactly the caller |
| IndexPool.ThreadSafeIndexPool.ReturnIndex | include/AstraLib/Pools/threadSafeIndexPool.hpp:27-29 | the index is submitted under the next write ticket, and the call returns, whatever the others do, if its slot is free when it starts; a caller who held it stops being a holder with the first access, and indices stay exclusive if clients behave during the call |
| IndexPool.ThreadSafeIndexPool.ReInitializePool | include/AstraLib/Pools/threadSafeIndexPool.hpp:32-36 | with nothing in flight the pool is exactly as constructed: each index once, in order; from then on no run gives an index two holders if and only if no client holds one over the call |
| Spsc.SpscRefinesFifo | include/AstraLib/Buffers/spscRingBuffer.hpp:28-72 | for every size from one up and every run: the same sequential queue, whose history puts the published values and takes the returned ones, the k-th dequeue returns the k-th value, 0 <= p - c <= size, the raised flags are exactly the slots of the unread items, the cursors are the operation counts modulo the size |
| Spsc.SpscNeverDeadlocks | include/AstraLib/Buffers/spscRingBuffer.hpp:34-70 | a spinning producer is blocked exactly when size items are unread, a spinning consumer exactly when none is, and never both |
| Spsc.CursorCounts | include/AstraLib/Buffers/spscRingBuffer.hpp:29-33 | the wrapping increment keeps the cursor at the operation count modulo the size |
| Spsc.SpscRingBuffer.Enqueue | include/AstraLib/Buffers/spscRingBuffer.hpp:28-39 | with any moves of the consumer between its accesses, the call follows a legal run and appends its value, and it returns if fewer than size items are unread when it starts |
| Spsc.SpscRingBuffer.Dequeue | include/AstraLib/Buffers/spscRingBuffer.hpp:60-72 | with any moves of the producer between its accesses, the k-th call to return has the k-th value ever submitted, and a call that starts with an unread item returns |
| Futex.GateSoundIffSingleWaiter | include/AstraLib/Threading/ThreadPool.hpp:25-41 | in all runs a waiter parked under a raised flag has a wake on its way if and only if at most one thread waits on the gate |
| Futex.SecondWaiterSleeps | include/AstraLib/Threading/ThreadPool.hpp:34-37 | with two waiters a concrete run leaves one asleep under a raised flag |
| Futex.WaitReturnsAfterIncrement | include/AstraLib/Atomic/atomicFutex.hpp:17-28 | in every run, wait returns only after an increment later than its snapshot |
| Futex.WakesReleaseWaiters | include/AstraLib/Atomic/atomicFutex.hpp:17-35 | after an increment, in every schedule of old and new waiters without wrap-around, k wake calls of which j go to newcomers leave at most max(0, n - (k - j)) of the n earlier waiters parked |
| Futex.ReleasesIffNoRival | include/AstraLib/Atomic/atomicFutex.hpp:17-35 | k wake calls leave at most max(0, n - k) of the n earlier waiters parked, in all runs, if and only if no thread may start waiting in between or at most one thread uses the futex |
| Futex.WakeCanBeTaken | include/AstraLib/Atomic/atomicFutex.hpp:31-35 | with two threads or more, a concrete run in which a newcomer takes the wake and the earlier waiter sleeps on with no wake owed |
| Futex.AtomicFutex.Wait | include/AstraLib/Atomic/atomicFutex.hpp:17-28 | against any behaviour of kernel and threads, a call that returns was preceded by an increment after its snapshot; an increment before its first futex call makes it return at its next re-load, without wrap-around |
| Futex.AtomicFutex.Wake | include/AstraLib/Atomic/atomicFutex.hpp:31-35 | one increment, anything the others do, then one kernel call that takes an arbitrary parked thread if there is any; without wrap-around, of the n threads waiting before at most n less the wakes that newcomers did not take are still parked |
| ThreadPoolInvariant.DispatchResetKeepsInv | include/AstraLib/Threading/ThreadPool.hpp:172-177 | reset, then recheck, keeps every unclaimed submission covered by a flag store to come or by the recheck |
| ThreadPoolInvariant.WorkKeepsWorker | include/AstraLib/Threading/ThreadPool.hpp:59-74 | each worker step keeps the handoff invariant between dispatcher and worker |
| ThreadPoolInvariant.DispatchGiveKeepsLost | include/AstraLib/Threading/ThreadPool.hpp:64-81 | every empty task handed over costs one worker for good, and no task is handed over after as many empty ones as there are workers |
| ThreadPoolInvariant.StepKeepsInv | include/AstraLib/Threading/ThreadPool.hpp:59-196 | every step of producers, dispatcher, workers, destructors and spurious wake-ups keeps the invariant |
| ThreadPoolTheorems.TasksAreConserved | include/AstraLib/Threading/ThreadPool.hpp:59-179 | in every run each submission is at exactly one of six places (in-flight producer, queue, dispatcher, assigned to a worker, executing, executed at one position), with its submitted body, and hand-overs follow ticket order |
| ThreadPoolTheorems.NoLostWakeup | include/AstraLib/Threading/ThreadPool.hpp:119-177 | a dispatcher parked or about to park with the flag down has only unclaimed submissions whose flag store is still to come; a thread parked with its flag up has a wake on its way |
| ThreadPoolTheorems.HandoffIsSafe | include/AstraLib/Threading/ThreadPool.hpp:59-81 | a free worker has nothing assigned and its flag down, dispatcher and worker never access the assignment together, a gate reset erases no activation |
| ThreadPoolTheorems.PoolQuiesces | include/AstraLib/Threading/ThreadPool.hpp:59-179 | a reachable open state with no productive step left has executed, once each, exactly the tasks with a target that came after fewer empty ones than there are workers; if no submission came later than that, all calls have returned and everybody without an empty task is parked; otherwise the dispatcher searches for ever |
| ThreadPoolTheorems.PoolRunsEverything | include/AstraLib/Threading/ThreadPool.hpp:59-179 | without empty tasks, such a state has every task executed and the dispatcher and all workers parked |
| ThreadPoolTheorems.ShutdownCompletes | include/AstraLib/Threading/ThreadPool.hpp:88-196 | once destruction has begun, a state with no productive step left has both destructors finished and every thread out of its loop, unless the dispatcher searches among workers all lost to empty tasks; each submission was run once or dropped while queued or unstarted |
| ThreadPoolProgress.PoolTerminates | include/AstraLib/Threading/ThreadPool.hpp:59-196 | from every reachable state, without new submissions, every schedule makes at most Rank + 20 * (spurious wake-ups) productive steps, and some schedule ends with the tasks executed as in PoolQuiesces, or with destruction finished |
| ThreadPoolProgress.DestructionIsSafeIff | include/AstraLib/Threading/ThreadPool.hpp:131-196 | a pool with no call in flight is destroyed completely in every schedule if and only if no task was submitted after as many empty tasks as there are workers |
| ThreadPoolStarvation.EmptyTasksStarve | include/AstraLib/Threading/ThreadPool.hpp:59-196 | for every number of workers, every empty task and every last task: a run that submits that many empty tasks and then the last one, and ends with all calls returned, the last task never executed, the dispatcher searching for ever and a destructor that cannot finish |
| ThreadPoolProgress.ScanMoves | include/AstraLib/Threading/ThreadPool.hpp:141-151 | a failing compare-exchange brings the scan closer to a free worker whenever there is one |
| ThreadPoolProgress.DispatchLocalDrops | include/AstraLib/Threading/ThreadPool.hpp:131-178 | each local dispatcher step brings it closer to its next claim, to parking, or to leaving its loop |
| ThreadPoolProgress.WorkDrops | include/AstraLib/Threading/ThreadPool.hpp:59-74 | each worker step brings it closer to parking or leaving its loop, except going round with an empty task, which changes nothing |
| ThreadPoolOrder.OrderMatters | include/AstraLib/Threading/ThreadPool.hpp:64-177 | among the program, the program with lines 68 and 70 exchanged and the program without the recheck of line 174, exactly the first leaves no task waiting for a sleeping thread in any run |
| ThreadPoolOrder.RaceErases | include/AstraLib/Threading/ThreadPool.hpp:66-70 | with lines 68 and 70 exchanged, in every reachable state in which any of n workers has been activated again before its reset, the reset erases the activation and the worker sleeps with the task |
| ThreadPoolOrder.ActivationIsErased | include/AstraLib/Threading/ThreadPool.hpp:66-70 | such a state is reachable: a worker asleep with a task, its flag down and the dispatcher elsewhere |
| ThreadPoolOrder.RaceForgets | include/AstraLib/Threading/ThreadPool.hpp:172-177 | without the recheck, in every reachable state in which a task was submitted and signalled just before the reset, the dispatcher sleeps with it in the queue and no signal to come |
| ThreadPoolOrder.TaskIsForgotten | include/AstraLib/Threading/ThreadPool.hpp:172-177 | such a state is reachable: an open pool with the dispatcher asleep, its flag down, a task in the queue and every call returned |
| DispatcherScan.PassCoversAll | include/AstraLib/Threading/ThreadPool.hpp:141-151 | n attempts from any start try every worker exactly once |
| DispatcherScan.Scanner.Pass | include/AstraLib/Threading/ThreadPool.hpp:141-151 | every worker tried before the last attempt was busy when tried, the last one was free exactly if the pass assigns, and then only its flag was raised; a failing pass has tried every worker and is back at its start, so a pass that starts with a free worker assigns |
| DispatcherScan.Scanner.Assign | include/AstraLib/Threading/ThreadPool.hpp:137-169 | the same over all passes: attempt k is at worker (id + k) modulo n, every failing attempt found its worker busy, the search ends exactly at the first attempt that finds its worker free and raises only that flag |

## Left out

- Weak memory: all results are for sequentially consistent interleavings. The release store and acquire
  loads at ThreadPool.hpp lines 173-174 and the plain `running` booleans are treated as atomic steps.
- The dispatcher loop, the worker loop and the destructors of the thread pool are step functions on
  values, because they are interleaved with each other; only the dispatcher's scan is also given as loops.
- Spinlock, SpinlockGuard and the lock in debugMessage: one-flag mutual exclusion, easy members only.
- PaddedAtomic, alignment and slot layout: no behaviour.
- claimPtrNoSync: bypasses the protocol on purpose.
- Object lifetime, moved-from values and exceptions: payloads are values. The overloads of `enqueue` and
  `emplaceEnqueue` take the same steps and are one operation in the model.
- The `int` slot index: exact for sizes up to 2^31, which the model does not require.
- Tasks that call `assignTask` on their own pool: producers are threads other than the dispatcher and the
  workers.
- Futex errors other than a changed value or an interrupt, thread creation and affinity.
- Timer, timeNow, debugMessage: clocks and output.
- Fairness and timing of spins: replaced by ranks and by exact descriptions of blocked states.
- Futex.WakesReleaseWaiters: excludes a 32-bit counter that comes round to a waiter's snapshot during the run,
  because such a waiter goes back to sleep.
