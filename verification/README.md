# Thread pool verification

This project models the thread pool (`src/thread_pool.cpp`), its multi-producer multi-consumer
blocking queue (`include/mpmc_blocking_queue.h`), the circular queue below it
(`include/circular_queue.h`), and the tasks with a future (`include/example_tasks.h`), and
proves what they promise in Dafny 4.11. `dafny verify dfyconfig.toml` checks all of it.

## How it is built

- `Ring.dfy`, `CircularQueue.dfy`: the ring buffer as a class over an array, tied to a bounded
  sequence with an overrun count.
- `BlockingQueue.dfy`, `QueueWaiting.dfy`: the blocking queue as a class over the ring, with the
  log of everything that went in and out; and the protocol of its two condition variables.
- `Config.dfy`: the configuration check, which gives the later results what they start from.
- `Pool.dfy`, `Steps.dfy`: the pool as a protocol. The state holds the shared fields and, for
  every submitter, worker, the thread inside `loadCheck`, the balancer and the thread inside
  `shutdown`, how far it has got in its code. A step is one access to shared state, or one
  critical section of the inner queue mutex, of `status_mutex_` or of `state_mutex_`. A thread
  that cannot move leaves the state as it is.
- `Tally.dfy`, `Lifecycle.dfy`, `SlotTable.dfy`, `Locking.dfy`, `Accounting.dfy`, `Waking.dfy`,
  `Limits.dfy`, `Shutdowns.dfy`: one part of the invariant each, with the lemma for each kind of
  thread that it keeps this part. `Invariants.dfy` puts them together, `Runs.dfy` defines runs:
  every interleaving of any number of steps of any number of threads.
- `Theorems.dfy`, `Policies.dfy`, `Peak.dfy`, `Pausing.dfy`, `LoadCheck.dfy`, `Balancer.dfy`,
  `Retirement.dfy`, `Creation.dfy`, `Readings.dfy`, `LockOrder.dfy`, `Drain.dfy`, `Leaving.dfy`,
  `Aftermath.dfy`, `Task.dfy`: what follows for all runs. `Switch.dfy` is about anything that is
  switched on and off in a run, `Origin.dfy` about the step in which something came about.
- `Measure.dfy`, `Progress.dfy`, `Waiter.dfy`, `Hanging.dfy`, `Timeout.dfy`: how many steps are left
  once the pool is on its way to its end, that `forceStop` and `stop` return, when
  `shutdown(WAIT_ALL)` does, and what `shutdown(WAIT_FOR)` ends in.
- `StateCalls.dfy`: any number of threads inside `pause`, `resume`, `shutdown` and `stop`.
- `ThreadPool.dfy`: the pool as a class over the real queue. Its short methods are the accesses
  of the source, each tied to a step of the protocol (`StepForms.dfy`); `Perform` and
  `PerformAll` connect schedules of the object with runs. On top of them stand the loops of
  `workerLoop`, `forceStop`, `stop` and `tryRemoveIdleThread`, in which any steps of the other
  threads come in before every access. `Interference.dfy` says what these can and cannot change.
- `Findings.dfy`: runs in which the pool does what one would not expect, put together from the
  stretches in `Witness.dfy`.

## What the proofs turned up

- `submit` adds to `pending_tasks_` after its push, so a worker can subtract a task before it
  was added. The counter is a mathematical integer here; where the code reads it as an unsigned
  number (`loadCheck`) the wrap-around is modelled. It is below zero exactly while more calls
  have pushed without counting than there are tasks left to subtract
  (`Readings.PendingBelowZeroIff`), the reading is right exactly outside that case
  (`Readings.ReadingExactIff`), and `Readings.EmptyQueueExpandsIff` says when a pool with nothing
  queued grows. It can (`Findings.IdlePoolGrows`).
- `shutdown(WAIT_ALL)` can sleep for ever, in two ways and no third. It makes boundedly many
  steps, and then it has returned or its waiter sleeps, nothing is queued, and every worker sleeps
  or is gone (`Hanging.WaitAllEnds`); in such a state `pending_tasks_` is the number of
  overwritten tasks (`Hanging.OverwrittenOrLost`), and the waiter stays asleep
  (`Hanging.RestsForEver`).
  When the late addition brings the counter from below zero back to zero, nobody notifies
  `wait_cv_` (`Findings.ShutdownCanHang`); `Waiter.WaiterForgottenIff` says exactly when a step
  does this, and it takes a submit call that was in flight as shutdown began.
  And an overwritten task is never subtracted, so with the `OVERWRITE` policy the wait can be
  for nothing although no call was in flight (`Findings.OverwritingHangs`). With no call in flight
  `shutdown(WAIT_ALL)` returns if and only if no task had been overwritten before
  (`Hanging.WaitAllReturnsIff`).
- `getStatus` holds no lock that keeps the threads as they are, and `calLoadFactor` loads
  `thread_count_` before `active_threads_`. The reported factor can be two because a thread has
  been started and not yet counted (`Findings.StatusCanExceedOne`), or because one was started
  and counted between the two loads (`Findings.StatusCanExceedOneCounted`);
  `Readings.StatusAboveOneIff` has the exact condition. `loadCheck` itself always reads a factor
  between 0 and 1 (`Theorems.LoadFactorBound`).
- The idle count of a worker does not measure idleness. A scan counts a worker that has taken no
  task for the threshold (`src/thread_pool.cpp:389`, `534-537`), also one that has been busy with
  one task all the time (`Findings.RetiredInLongTask`). Besides, the decision to retire a worker and
  the flag are two steps, and the worker may take a task in between (`Findings.RetiredWhileBusy`).
  `Retirement.FlaggedInHandIff` says exactly when a worker that is told to exit has a task in hand,
  and `Retirement.IdleCountKeptIff` when its count is still what the decision asked for. It finishes
  its task in any case: a worker that leaves holds none (`Retirement.LeavesEmptyHanded`).
- The exit flag of a reused slot is cleared after the new thread has been started. The thread may
  read it before and leave; the slot then counts as a thread without being one, and no new thread
  gets it until the scans retire it (`Findings.NewThreadCanBeLost`, `Creation.DeadAfterIff`).
- The comment on `submit` (`src/thread_pool.cpp:139`) says that the blocking policy always
  enqueues. A submit call that waits for room is not told when the pool stops: it can go on if
  and only if there is room (`Aftermath.BlockedSubmitIff`). After `stop` has returned one such
  call can push its task, which then blocks the next one for ever
  (`Findings.StopStrandsSubmits`, `Aftermath.BlockedForEver`); nobody executes or abandons that
  task any more (`Aftermath.StrandedForEver`).
- `stop` called directly can return with accepted tasks in the queue. It leaves the state running
  until its last join, so a submit call may be let in after every worker has gone
  (`Findings.StopAdmitsTask`); a worker that was paused leaves without a look at the queue
  (`Findings.PausedStopLeavesTask`); and so does one that was told to exit
  (`Findings.FlaggedStopLeavesTask`). `Leaving.UnforcedStop` says exactly when the queue is empty
  as `stop` returns, and what became of every task.
- A queue without capacity accepts elements and drops them unseen: `enqueueIfNotFull` returns
  true. `BlockingQueues.LinearisableIff` and `Ring.PushAllClosedForm` state their laws with that
  exception on one side of an equivalence. A pool made by `makeThreadPool` never has such a
  queue; the constructors themselves do not check.
- The file names in the repository's own README are not those of its sources.

## What is assumed

- The pool was made from a configuration that `validateConfigBasic` accepts, and construction is
  one atomic initial state.
- Atomics are sequentially consistent. Condition variables may wake spuriously. A flag store and
  its notification under one lock are one step.
- In the protocol of the whole pool one thread at a time is inside `shutdown` or `stop`;
  `StateCalls.dfy` is about several. No external `loadCheck` gets to `worker_access_mutex_` once
  `stop` has joined the balancer, and tasks do not call back into the pool.
- Every task object is submitted at most once, and executing a task ends, with success, a
  reported failure or a `std::exception`.

## Model

| member | source | states |
|---|---|---|
| `Ring.PushAllClosedForm` | include/circular_queue.h:117-130 | n pushes leave the last `capacity` elements of the contents followed by the pushed ones; the overrun count rises by exactly the elements that no longer fit, if and only if the queue has capacity or nothing was pushed |
| `CircularQueues.CircularQueue.Items` | include/circular_queue.h:61-65 | the live window from head to end, through every wrap-around, has `size()` elements |
| `CircularQueues.CircularQueue.Default` | include/circular_queue.h:39 | a queue with no slot at all: empty, without capacity |
| `CircularQueues.CircularQueue.constructor` | include/circular_queue.h:41 | an empty queue that holds as many elements as asked for, one slot more inside |
| `CircularQueues.CircularQueue.Move` | include/circular_queue.h:85-95 | the new queue has the contents and the overrun count; the source is empty, without capacity, and keeps its overrun count |
| `CircularQueues.CircularQueue.Empty` | include/circular_queue.h:61 | true exactly for no contents |
| `CircularQueues.CircularQueue.Full` | include/circular_queue.h:62 | true exactly when the contents fill a capacity above zero |
| `CircularQueues.CircularQueue.At` | include/circular_queue.h:229-235 | the element at that place of the contents, failure exactly when the index is out of range |
| `CircularQueues.CircularQueue.Front` | include/circular_queue.h:194-200 | the oldest element, failure exactly when empty |
| `CircularQueues.CircularQueue.PushBack` | include/circular_queue.h:116-130 | appends, dropping and counting the oldest element when full; nothing happens without capacity; only the slot at end changes |
| `CircularQueues.CircularQueue.MoveOutFront` | include/circular_queue.h:186-189 | moving out of the reference leaves an empty slot and every other element in place |
| `CircularQueues.CircularQueue.PopFront` | include/circular_queue.h:174-181 | drops the oldest element; fails and changes nothing when empty |
| `CircularQueues.CircularQueue.Clear` | include/circular_queue.h:261-265 | no contents, overrun count zero, same capacity |
| `CircularQueues.CircularQueue.ResetCounter` | include/circular_queue.h:75 | only the overrun count changes |
| `CircularQueues.CircularQueue.MoveAssign` | include/circular_queue.h:97-111 | takes over contents, capacity and count and empties the source; self-assignment changes nothing |
| `CircularQueues.PushWindow` | include/circular_queue.h:122-129 | writing at end and stepping over it appends to the window; when that meets head, stepping head drops exactly the oldest element and the spare slot keeps it |
| `BlockingQueues.MPMCBlockingQueue.constructor` | include/mpmc_blocking_queue.h:31 | an empty queue of that capacity, nothing discarded |
| `BlockingQueues.MPMCBlockingQueue.Size` | include/mpmc_blocking_queue.h:153-157 | the number of elements in the queue |
| `BlockingQueues.MPMCBlockingQueue.Push` | include/mpmc_blocking_queue.h:64 | one push, logged as accepted and, when it overwrites, as the removal of the oldest; a push into a full queue leaves the overwritten task only in the spare slot, any other push leaves that slot empty |
| `BlockingQueues.MPMCBlockingQueue.Enqueue` | include/mpmc_blocking_queue.h:57-67 | pushes exactly when there is room; a full queue makes the producer wait and changes nothing |
| `BlockingQueues.MPMCBlockingQueue.EnqueueNoWait` | include/mpmc_blocking_queue.h:73-82 | always pushes, overwriting the oldest when full |
| `BlockingQueues.MPMCBlockingQueue.EnqueueIfNotFull` | include/mpmc_blocking_queue.h:89-106 | accepts exactly when there is room, otherwise counts one discard and changes nothing else |
| `BlockingQueues.MPMCBlockingQueue.Dequeue` | include/mpmc_blocking_queue.h:112-124 | hands over the oldest element and removes it; an empty queue makes the consumer wait and changes nothing |
| `BlockingQueues.MPMCBlockingQueue.TakeFront` | include/mpmc_blocking_queue.h:120-121 | moving out and then popping leaves the vacated slot empty |
| `BlockingQueues.TidyPush` | include/circular_queue.h:122-129 | outside the live window only the spare slot can own an element, the one overwritten last, and the next push destroys it |
| `BlockingQueues.TidyPop` | include/mpmc_blocking_queue.h:120-121 | the move-then-pop dequeue keeps that ownership |
| `BlockingQueues.LinearisableIff` | include/mpmc_blocking_queue.h:57-148 | for every interleaving of the five operations: the pushed elements are the removed ones in order followed by the contents, and the overrun count is the number overwritten, if and only if the queue has capacity or nothing was pushed |
| `BlockingQueues.FirstInFirstOut` | include/mpmc_blocking_queue.h:57-124 | without the overwriting enqueue nothing is overwritten and what consumers got, followed by the contents, is what was pushed |
| `BlockingQueues.RemovalsSplit` | include/mpmc_blocking_queue.h:57-148 | the removed elements are the dequeued and the overwritten ones, each once |
| `BlockingQueues.DiscardsCounted` | include/mpmc_blocking_queue.h:89-106 | over every interleaving of the five operations the discard count is the number of enqueueIfNotFull calls that met a full queue |
| `QueueWaiting.StepForgetsNobody` | include/mpmc_blocking_queue.h:57-148 | every critical section and every late notification keeps an awake consumer or a coming signal for each element a sleeping consumer could take, and likewise for producers and free places |
| `QueueWaiting.NoLostQueueWakeup` | include/mpmc_blocking_queue.h:57-148 | whenever all calls have returned or sleep and all signals are out: consumers sleep only on an empty queue, producers only on a full one, never both |
| `Configs.ValidateConfigBasic` | src/thread_pool_config.cpp:94-127 | accepts exactly the configurations with at least one core thread, room for the core threads, room for a task, and consistent load factors |
| `Steps.FirstFlagged` | src/thread_pool.cpp:465-472 | the first flagged slot from the core slots on, or the end of the workers |
| `Waking.NotifyAllReaches` | src/thread_pool.cpp:220-224 | after notify_all every live worker that is not told to exit is about to look at the queue, and no task in hand, thread or other count of workers has changed |
| `ThreadPools.ThreadPool.constructor` | src/thread_pool.cpp:99-127 | for every configuration with room for its core threads: the pool that runs start from, over a queue of its own |
| `ThreadPools.ThreadPool.StartCoreWorkers` | src/thread_pool.cpp:112-126 | the loop starts and counts exactly the core threads and sets the peak |
| `ThreadPools.MakeThreadPool` | src/thread_pool.cpp:633-638 | a pool exactly for a usable configuration, and then the pool that every run starts from |
| `ThreadPools.ThreadPool.PushByPolicy` | src/thread_pool.cpp:146-158 | which of the three queue operations runs, what it does to the queue, and whether the call goes on |
| `ThreadPools.ThreadPool.JudgeGrowth` | src/thread_pool.cpp:323-333 | true exactly if the load asks for another thread, with the pending count read as an unsigned number |
| `ThreadPools.ThreadPool.FindFlagged` | src/thread_pool.cpp:465-472 | the loop finds the first flagged slot, or the end of the workers |
| `ThreadPools.ThreadPool.SlotToFill` | src/thread_pool.cpp:461-490 | the first flagged slot, to be joined first if its thread has not been; a new slot if and only if there is none and the table has room; no slot if and only if stop has been announced or a full table has no flagged slot |
| `ThreadPools.ThreadPool.WakeWorkers` | src/thread_pool.cpp:546 | the loop wakes exactly the sleepers |
| `ThreadPools.ThreadPool.Perform` | src/thread_pool.cpp:141-618 | every action of every thread is exactly one protocol step on the fields, and keeps the invariant |
| `ThreadPools.ThreadPool.PerformAll` | src/thread_pool.cpp:141-618 | any schedule of actions leaves the object in the state that the protocol run ends in |
| `ThreadPools.ThreadPool.DrainQueue` | src/thread_pool.cpp:608-615 | the loop of forceStop ends with the queue empty whatever the others do in between, and abandons at most what was queued or past its running check |
| `ThreadPools.ThreadPool.TakeTask` | src/thread_pool.cpp:368-398 | a worker under queue_mutex_, with the others moving before every access, leaves with a task to execute and the mutex free, or without a task asleep, gone or at the top; it never waits in dequeue |
| `ThreadPools.ThreadPool.FinishTask` | src/thread_pool.cpp:422-426 | the end of a round, with the others in between: back at the top, the mutex free, no waiter asleep |
| `ThreadPools.ThreadPool.ScanIdleWorkers` | src/thread_pool.cpp:527-549 | the loop, with workers taking tasks in between, ends at an unflagged worker that is no core worker and whose idle count is high enough, or at none |
| `ThreadPools.ThreadPool.JoinWorkers` | src/thread_pool.cpp:228-232 | the loop, with the others moving while a join waits, ends with every worker gone, or still waits for a worker that has not ended |
| `Invariants.NextInv` | src/thread_pool.cpp:141-618 | every step of every thread keeps the whole invariant |
| `Runs.InitialInv` | src/thread_pool.cpp:99-127 | construction establishes it |
| `Runs.AfterStep` | src/thread_pool.cpp:141-618 | runs grow by single steps |
| `Lifecycle.RankNeverDrops` | src/thread_pool.cpp:233-295 | no step of any thread lowers running/paused < shutting down < force shutting < stopped, and stopped stays |
| `SlotTable.ManagerTable` | src/thread_pool.cpp:317-568 | the slot table stays sound through creating, reusing, retiring and cleaning, also when a thread fails to start |
| `SlotTable.ManagerCounted` | src/thread_pool.cpp:479-504 | thread_count_, created, destroyed and peak keep following the thread objects |
| `SlotTable.ThreadsManaged` | src/thread_pool.cpp:479-492 | thread objects appear exactly when a thread starts and disappear exactly when it is joined |
| `Locking.WorkerLocked` | src/thread_pool.cpp:368-426 | the holder of queue_mutex_ is the thread whose position says so, and whoever is about to dequeue has an element waiting |
| `Accounting.WorkerAccounted` | src/thread_pool.cpp:382-425 | a worker keeps the conservation laws of tasks and counters |
| `Accounting.WorkerOwned` | src/thread_pool.cpp:382-401 | a worker neither loses nor duplicates a task |
| `Waking.WorkerAwake` | src/thread_pool.cpp:354-391 | a worker keeps the wake-up bound, above all when it falls asleep |
| `Waking.SubmitAwake` | src/thread_pool.cpp:146-165 | so does a submit call, whose push is outside queue_mutex_ |
| `Shutdowns.ControlSettling` | src/thread_pool.cpp:174-237 | shutdown, drain and stop keep the account of what becomes of the tasks |
| `Theorems.MutualExclusion` | src/thread_pool.cpp:368-426 | in every run no two threads are inside queue_mutex_ |
| `Theorems.DequeueNeverBlocks` | src/thread_pool.cpp:382-383 | in every run a worker or the drain that dequeues under queue_mutex_ finds an element, so it never waits there |
| `Theorems.NoLostWakeup` | src/thread_pool.cpp:146-165 | in every run, short of a forced shutdown: while some worker sleeps, queued tasks are at most the submits still to notify plus the workers still to look |
| `Theorems.AllAsleepMeansEmpty` | src/thread_pool.cpp:354-391 | in every run, short of a forced shutdown: if all live workers sleep and no submit is still to notify, the queue is empty |
| `Theorems.TaskConservation` | src/thread_pool.cpp:146-162 | in every run, while queue_mutex_ is free: pending plus uncounted submits equals queued plus running plus overwritten, as integers |
| `Theorems.IdlePoolPending` | src/thread_pool.cpp:174-180 | what waitForAllTask waits for holds on an idle pool if and only if no task was ever overwritten |
| `Theorems.ExactlyOnePlace` | src/thread_pool.cpp:382-401 | in every run each accepted task is in exactly one place: queued, overwritten, in one hand, executed or abandoned, once |
| `Theorems.NobodyLeft` | src/thread_pool.cpp:212-237 | once stop has returned every worker is gone, running and active are zero, and the outcome counters are the executions and abandonments by outcome |
| `Theorems.ReturnedAccount` | src/thread_pool.cpp:212-271 | however shutdown or stop was called and whatever was in flight: when it has returned every accepted task was executed, abandoned, overwritten or is still queued, once, and succeeded, failed, overwritten and queued add up to the accepted tasks |
| `Policies.AdmittedIff` | src/thread_pool.cpp:141-145 | in every run a submit call is let in if and only if the state is running |
| `Policies.PolicyIsLastSet` | include/thread_pool.h:128 | after every run the policy is the one set last, or that of the configuration |
| `Policies.ChosenWhenRead` | src/thread_pool.cpp:146 | in every run a submit call acts on the policy that was the last one set when the call read it |
| `Policies.FullQueue` | src/thread_pool.cpp:146-158 | with room the task is accepted under every policy; on a full queue a blocking call does not move, an overwriting one is accepted and drops exactly the oldest task, a discarding one is over with one discard counted and nothing else changed |
| `Policies.FullQueueCounted` | src/thread_pool.cpp:146-158 | over every run the overrun count is the number of calls that met a full queue having read OVERWRITE, the discard count the number of those that had read DISCARD |
| `Policies.OnlyWhatStood` | src/thread_pool.cpp:146-158 | in every run: if OVERWRITE never stood nothing is overwritten, if DISCARD never stood nothing is discarded, if BLOCKING never stood no call that has read its policy waits |
| `Policies.RefusedIff` | src/thread_pool.cpp:155-167 | in every run a call is over without its task being accepted if and only if it met a full queue having read DISCARD, at any time before |
| `Policies.RefusedIsNowhere` | src/thread_pool.cpp:155-167 | a refused task is not queued, overwritten, in a hand, executed or abandoned, then or later |
| `Leaving.LeavesIff` | src/thread_pool.cpp:355-379 | once stopped_ is set a worker leaves if and only if its flag, the pause or a forced shutdown makes it, or it sees an empty queue under queue_mutex_ |
| `Leaving.ServedIff` | src/thread_pool.cpp:212-237 | once stopped_ is set the tasks in the queue lose their last worker if and only if it leaves in one of the first three ways, or a task is pushed when all have left; and get one back if and only if a thread that was being created starts |
| `Leaving.StopLeavesTasksIff` | src/thread_pool.cpp:212-237 | from any point at which stopped_ is set, forced or not: tasks are in the queue as stop returns if and only if there was such a step without a start after it, or it was so to begin with |
| `Leaving.UnforcedStop` | src/thread_pool.cpp:212-237 | a direct stop, or that of a shutdown that was not forced: nothing is abandoned, the queue is empty as it returns if and only if there was no such step, and executed, overwritten and queued tasks are the accepted ones |
| `Theorems.GracefulShutdown` | src/thread_pool.cpp:247-271 | a graceful shutdown, from running or paused, that began with no submit in flight: queue empty, nothing overwritten, every accepted task executed exactly once and counted by its outcome |
| `Theorems.ForcedShutdown` | src/thread_pool.cpp:597-618 | a forced shutdown that began with no submit in flight: the tasks queued at the drain were abandoned in order, at most one task was started late, failed counts exactly the abandoned tasks and the failed executions, succeeded the other executions, and outcomes plus overwritten tasks equal the accepted ones |
| `Theorems.SlotTableSound` | src/thread_pool.cpp:460-568 | while worker_access_mutex_ is free and stop has not begun to join: thread_count_ is the number of joinable slots, between core and peak, core slots are joinable and unflagged, a slot without thread is flagged |
| `Theorems.CreateFindsSlot` | src/thread_pool.cpp:473-475 | the branch that says "should not get here" is unreachable |
| `Theorems.LoadFactorBound` | src/thread_pool.cpp:574-583 | in every run active threads never exceed the counted ones but for the one thread started and not counted, so the load factor that loadCheck reads is between 0 and 1 |
| `Theorems.LifecycleMonotone` | src/thread_pool.cpp:247-295 | over any two points of a run the state never goes back, stopped stays, and at most one shutdown passes the guard |
| `StateCalls.CallersMonotone` | src/thread_pool.cpp:212-295 | the same with any number of threads inside pause, resume, shutdown and stop at once, and at most one forceStop passes its own guard |
| `StateCalls.PoolStepIsCall` | src/thread_pool.cpp:212-295 | a step of the pool does to state_ what such a call does |
| `StateCalls.ShutdownIsTurn` | src/thread_pool.cpp:247-271 | shutdown goes from its guard to the wait that its option asks for, FORCE to forceStop |
| `StateCalls.ControlIsTurn` | src/thread_pool.cpp:174-271 | each step of the thread inside shutdown leaves its call where it is or is its next turn, the turn of a time limit only if the limit has passed, and some turn whenever a poll has found both counters at zero or the limit has passed |
| `Theorems.DrainEnds` | src/thread_pool.cpp:607-615 | the drain abandons at most as many tasks as were queued or past their running check when the pool stopped taking tasks |
| `Peaks.PeakIsMaximum` | src/thread_pool.cpp:496-504 | peak_thread bounds every earlier thread_count_, was reached, and is at most the configured maximum |
| `Pausing.PauseBound` | src/thread_pool.cpp:354-391 | during one uninterrupted pause each worker takes at most one task, and none if the pause check is still before it, as it is for a worker created in the pause |
| `Retirement.IdleCounted` | src/thread_pool.cpp:487-537 | the idle count of a slot is the number of scans of the run that counted it since its worker last took a task or was started; a scan counts a worker that has taken none for the threshold, idle or busy |
| `Retirement.FlaggedWhenIdle` | src/thread_pool.cpp:527-549 | a worker is flagged only by a decision made after consecutive_idle_count such scans, never undone in between, and never a core worker |
| `Retirement.IdleCountKeptIff` | src/thread_pool.cpp:527-549 | when the flag is set the idle count is still high enough if and only if the worker took no task since the decision, or the configuration asks for no scan |
| `Retirement.InHandIff` | src/thread_pool.cpp:383-401 | between two points of a run: a worker has a task in hand if and only if it took one and has not finished since, or had one at first and has not finished that |
| `Retirement.FlaggedInHandIff` | src/thread_pool.cpp:527-549 | so a worker is told to exit with a task in hand if and only if it took one since the decision, or still has the one it had then |
| `LoadChecks.DecidesIff` | src/thread_pool.cpp:317-342 | in every run, with the numbers it has read, loadCheck grows if and only if there is room and the load, the backlog or the backlog per thread reaches its bound, and starts a scan if and only if it does not grow, there are more than the core threads and active < remove_factor * threads |
| `LoadChecks.ScanMeansUnderload` | src/thread_pool.cpp:317-342 | in every run, while a scan, an idle test or a flag is under way, the load check that began it had read the active threads and then the counted ones with that result |
| `LoadChecks.NobodyFlagged` | src/thread_pool.cpp:338-340 | with a remove_factor of zero or less no worker is flagged in any run |
| `Balancers.ScanFindsFirst` | src/thread_pool.cpp:527-552 | in every run a scan that ends without a flag leaves no extra slot that is unflagged and counted often enough, and one that flags takes the first such slot |
| `Balancers.RunningBalancer` | src/thread_pool.cpp:286-450 | in every run: a balancer asleep on pause_cv_ means a pool that is not running; only a dynamic pool has a balancer; and while that pool runs and nobody stops it the balancer is there, awake, and can move or waits for whoever is inside loadCheck |
| `Balancers.RoundSteps` | src/thread_pool.cpp:434-449 | in every run a round begins only in the running state, and checks the load if and only if the state is running as it comes to that |
| `Balancers.RoundChecksLoad` | src/thread_pool.cpp:443-448 | between a nap and the next turn of the loop, with the state running throughout, the balancer enters loadCheck and reads the active threads |
| `Balancers.OutsideLoadCheck` | src/thread_pool.cpp:313-317 | loadCheck called from outside goes on if and only if the state is running, and then reads the active threads once nobody else is inside |
| `Balancers.RoundCleans` | src/thread_pool.cpp:434-568 | as the balancer gets back to the top of its loop there is no flagged slot whose thread is not joined |
| `Balancers.CleanLeavesNone` | src/thread_pool.cpp:557-567 | so after every finished pass of cleanFinishedThread |
| `Retirement.LeavesEmptyHanded` | src/thread_pool.cpp:354-380 | a worker that leaves holds no task and no mutex, counts in no counter and takes nothing out of the queue |
| `Readings.PendingBelowZeroIff` | src/thread_pool.cpp:146-164 | in every run: pending_tasks_ is below zero if and only if more submits have pushed without counting than tasks are queued, in hand or overwritten |
| `Readings.ReadingExactIff` | src/thread_pool.cpp:320 | as long as the counter fits 64 bits: the unsigned reading is the true number if and only if that is not so, hence whenever no submit is in flight |
| `Readings.EmptyQueueExpandsIff` | src/thread_pool.cpp:320-335 | with an empty queue loadCheck asks for a thread if and only if the load factor or that reading does; on an idle pool without calls the reading is the number of overwritten tasks |
| `Readings.InstantAboveIff` | src/thread_pool.cpp:574-583 | in every run: active threads outnumber the counted ones if and only if a thread is started and not counted and every thread is active |
| `Readings.ThreadsAddUp` | src/thread_pool.cpp:228-566 | between any two points of a run the thread objects change by those started less those joined, by stop too |
| `Readings.StatusAboveOneIff` | src/thread_pool.cpp:300-308 | with its two loads at any two points of a run getStatus reports more than one if and only if stop had not begun to join at the first, and fewer threads are idle at the second than were started, and not joined, since the first, counting one that was started and not counted at the first |
| `Progress.StopNeverStuck` | src/thread_pool.cpp:212-237 | inside forceStop and stop some thread can always move |
| `Measures.StepsLeftDrops` | src/thread_pool.cpp:141-618 | once shutdown has begun, or stopped_ is set, every step of a thread that is inside, spurious wake-ups and timed polling aside, brings the end closer |
| `Progress.StepAccount` | src/thread_pool.cpp:141-618 | every step at all: a submit call let in adds 32, a load check 9 * max_threads + 30, a spurious wake-up at most 6, any other call nothing, and a step of a thread inside takes one off |
| `Progress.EndAccount` | src/thread_pool.cpp:141-618 | so over every sequence of actions the threads inside make at most as many steps as were left plus that price |
| `Progress.StopReturns` | src/thread_pool.cpp:212-618 | over every sequence of actions, new calls included, from the beginning of forceStop or from stopped_ on: that bound, in which no call counts once shutdown has begun; until stop has returned one of the threads can move, so after that many steps the pool is stopped |
| `Progress.DrivenStopReturns` | src/thread_pool.cpp:212-618 | without new calls forceStop and stop return under every scheduler that does not pick waiting threads for ever |
| `Timeouts.PollResult` | src/thread_pool.cpp:188-207 | one poll of waitForRunningTask with any steps of the others between its two loads: both counters read as they are at their load; both zero end the wait, otherwise the time limit ends it in forceStop, and short of it there is another poll |
| `Timeouts.ForcedIff` | src/thread_pool.cpp:247-271 | in every run forceStop is entered if and only if shutdown(FORCE) passed the guard or a poll ran out of time with one of its counters not at zero |
| `Timeouts.LimitReturns` | src/thread_pool.cpp:188-271 | from a poll that looks at its counters with the limit passed, in every interleaving: boundedly many steps, and until shutdown has returned somebody can move; it returns forced if and only if one of the counters was not zero |
| `Progress.MoverIsDiligent` | src/thread_pool.cpp:212-237 | such schedulers exist |
| `DrainLoop.DrainShrinks` | src/thread_pool.cpp:607-615 | queued tasks plus submits that may still push never grow once the pool takes no tasks, and drop with each round of the drain |
| `LockOrder.LockRanking` | src/thread_pool.cpp:163-613 | in every run each thread locks only mutexes ranked above all it holds, over all five, and state_mutex_ never together with another |
| `LockOrder.NoMutexCycle` | src/thread_pool.cpp:163-613 | no circle of threads each holding the mutex that another locks next, and no such chain longer than three |
| `LockOrder.WaitsDescend` | src/thread_pool.cpp:163-544 | whoever waits for a mutex or in a join waits for a thread below it |
| `LockOrder.NoWaitCycle` | src/thread_pool.cpp:163-613 | in no run do threads wait for each other in a circle, and no chain of waiting threads is longer than five |
| `LockOrder.BlockedWorkerWaits` | src/thread_pool.cpp:368-422 | a worker that cannot move is asleep, paused, or in that relation |
| `LockOrder.BlockedManagerWaits` | src/thread_pool.cpp:479-566 | so is whoever holds worker_access_mutex_ |
| `LockOrder.BlockedControllerWaits` | src/thread_pool.cpp:175-230 | so is the thread in shutdown, unless it sleeps on wait_cv_ |
| `LockOrder.BlockedSubmitterWaits` | src/thread_pool.cpp:146-164 | so is a submit call that has pushed, whichever sleeper it may wake; one that has not pushed waits for room alone |
| `LockOrder.BlockedBalancerWaits` | src/thread_pool.cpp:434-450 | so is the balancer, unless it sleeps on pause_cv_ |
| `Waiter.WaiterForgottenIff` | src/thread_pool.cpp:162-180 | a step loses the waiter of waitForAllTask if and only if it raises pending_tasks_ from below zero to zero without a worker about to notify |
| `Waiter.QuietWaiterIsHeard` | src/thread_pool.cpp:162-180 | with no submit in flight when shutdown began, a sleeping waiter has a nonzero pending_tasks_ or a notification ahead; and as long as nothing was overwritten, a queued task, a task in hand or that notification |
| `Waiter.OverwrittenNeverReturns` | src/thread_pool.cpp:174-180 | with no submit in flight when shutdown(WAIT_ALL) began: from the moment a task has been overwritten it never leaves waitForAllTask, however the run goes on |
| `Hanging.OverwrittenOrLost` | src/thread_pool.cpp:162-180 | in every run, while the waiter of waitForAllTask sleeps: no worker and no submit can move if and only if nothing is queued, every call has returned and every worker sleeps or is gone; and then pending_tasks_ is the number of overwritten tasks, above zero if no submit was in flight as shutdown began |
| `Hanging.RestsForEver` | src/thread_pool.cpp:174-180 | in such a state the waiter sleeps in every continuation without a spurious wake-up of its own, whatever workers, load checks and calls do; and never leaves waitForAllTask, woken or not, if a task was overwritten |
| `Hanging.WaitAllEnds` | src/thread_pool.cpp:247-271 | every shutdown(WAIT_ALL), in every interleaving: a bounded number of steps, and when no further one is possible it has returned or sleeps in such a state |
| `Hanging.WaitAllReturnsIff` | src/thread_pool.cpp:247-271 | with no submit in flight as it began: when no further step is possible, which comes after a bounded number of them, shutdown(WAIT_ALL) has returned if and only if no task had been overwritten |
| `Findings.ShutdownCanHang` | src/thread_pool.cpp:162-180 | a run, for every configuration with one core thread, after which shutdown(WAIT_ALL) sleeps in such a state with nothing pending |
| `Findings.OverwritingHangs` | include/mpmc_blocking_queue.h:73-82 | a run, with one core thread, room for one task and the overwriting policy, after which it does so with one overwritten task pending, although no submit was in flight as it began |
| `Findings.StatusCanExceedOne` | src/thread_pool.cpp:300-308 | a run after which getStatus reports a load factor of two, both loads at one instant |
| `Findings.StatusCanExceedOneCounted` | src/thread_pool.cpp:300-308 | a run in which it reports two although every started thread is counted at either load |
| `Steps.Unsigned` | include/thread_pool.h:168 | the 64-bit value that a read of the counter returns, also for a counter below zero |
| `Findings.IdlePoolGrows` | src/thread_pool.cpp:320-335 | a run after which loadCheck asks for another thread although no task is queued, because pending_tasks_ is below zero |
| `Findings.RetiredWhileBusy` | src/thread_pool.cpp:540-546 | a run after which a worker is flagged while it executes a task that it took after the decision |
| `Findings.RetiredInLongTask` | src/thread_pool.cpp:534-546 | a run after which a worker is flagged that has been inside one task from before the scan to the flag |
| `Findings.StopStrandsSubmits` | src/thread_pool.cpp:146-151 | a run with two submits blocked on a full queue, after which stop has returned, one of them pushes its task and the other is still blocked |
| `Findings.StopAdmitsTask` | src/thread_pool.cpp:212-237 | a run of a direct stop that lets a submit in after every worker has gone and returns with its task queued |
| `Findings.PausedStopLeavesTask` | src/thread_pool.cpp:358-365 | a run of a direct stop of a paused pool, with no submit in flight or let in, that returns with a task queued |
| `Findings.FlaggedStopLeavesTask` | src/thread_pool.cpp:355-357 | a run of a direct stop in which the core worker leaves an empty queue, a task is pushed while a retired worker is still busy, and that worker leaves it behind |
| `Creation.DeadAfterIff` | src/thread_pool.cpp:486-489 | in every run before stop and forceStop: a slot comes to be counted, unflagged and without a live thread if and only if its flag is cleared after the new thread has left because of it, and stays so until it is retired |
| `Creation.DeadIsNotReused` | src/thread_pool.cpp:465-490 | no new thread gets such a slot |
| `Creation.CountedThreadIsReady` | src/thread_pool.cpp:486-496 | in every run a thread that is about to be counted was started in a new slot, or in a flagged one that has lost its flag and its old idle count |
| `Creation.StartsUnstopped` | src/thread_pool.cpp:460-492 | in every run a thread is started only by an attempt that has found stopped_ not set |
| `Findings.NewThreadCanBeLost` | src/thread_pool.cpp:486-489 | a run that ends with such a slot |
| `Aftermath.BlockedForEver` | include/mpmc_blocking_queue.h:57-67 | one that is blocked on a full queue when stop has returned is blocked in every continuation |
| `Aftermath.StrandedForEver` | src/thread_pool.cpp:146-158 | a task that is queued when stop has returned, or pushed after that, is never executed or abandoned: it stays queued unless it is overwritten |
| `Tasks.FutureTask.constructor` | include/example_tasks.h:37 | an unset promise, not successful |
| `Tasks.FutureTask.Set` | include/example_tasks.h:81-83 | a promise can be set once; a second time throws and changes nothing |
| `Tasks.FutureTask.Execute` | include/example_tasks.h:76-90 | an unset promise gets the value, or the exception of the callable, and success says which; on a settled promise the call throws and changes nothing |
| `Tasks.FutureTask.Abandon` | include/example_tasks.h:92-96 | an unset promise gets the error; on a settled promise the call throws and changes nothing |
| `Tasks.SettlementsCounted` | src/thread_pool.cpp:401-611 | the execute and abandon calls on a task in a run are what the history counts |
| `Tasks.PromiseSetOnce` | include/example_tasks.h:76-96 | over any run a task is executed once, abandoned once, or neither, so its promise is set at most once and holds the outcome of that one call |

## Left out

- Logging, JSON and file configuration, `validateConfigExtra`, `stateToString` and the stream
  and format operators: no effect on the state of the pool.
- Wall-clock time: idle times, the poll interval, the waits of `waitForRunningTask` and
  `dequeueWaitFor` are choices that the steps take as parameters. The average task time is not
  modelled.
- The constructors that take a thread count instead of a configuration, and the interleaving of
  construction with the balancer thread.
- The destructor: it is a `shutdown(WAIT_FOR)`.
- `waitForAllTask` and `waitForRunningTask` called by anybody but the thread inside `shutdown`.
- The other fields of `getStatus` and the other accessors: they copy fields.
- `submitWithResult`: it wraps a callable in a `FutureTask`, submits it, and for a discarded task
  returns a future with a broken promise. The promise of a task destroyed unsettled is not
  modelled either.
- `emplaceBack`, the copying `pushBack` and `operator[]` of the circular queue: the same effect as
  `PushBack` and, within range, as `At`.
- Weak memory orders, and data races on `thread_last_active_`.
- `std::thread`, `std::promise` and the mutexes themselves beyond started/joined, set once and
  held/free.
- Liveness while the pool runs: that a submitted task is executed in the end depends on a fair
  scheduler. The wake-up theorems are the safety form of it.
- ThreadPools.ThreadPool.constructor: asks that the core threads fit below the maximum. With more
  of them the source indexes its flags out of bounds.
- ThreadPools.ThreadPool.TakeTask: is the stretch of one round under `queue_mutex_`. The waits
  around it, for the mutex, on `queue_cv_` and during a pause, have no bound and are steps of the
  protocol only.
- ThreadPools.ThreadPool.PerformAll: steps an object whose fields include how far each thread has
  got, which the source keeps on its stacks.
- ThreadPools.ThreadPool.ScanIdleWorkers: ends with the decision; setting the flag is a step of
  its own.
- Theorems.LifecycleMonotone: is about runs with one thread at a time inside `shutdown` or `stop`,
  as are the other results for all runs. `StateCalls.CallersMonotone` covers any number, for what
  they do to `state_`.
- Progress.StopReturns: lets the join of the balancer also wait for an external `loadCheck` to
  leave, which the source does not. It begins with forceStop, or with the step that sets
  `stopped_`; how long `waitForRunningTask` polls is up to its time limit.
- LockOrder.NoWaitCycle: is about queue_mutex_, worker_access_mutex_ and joins, where a thread
  keeps waiting; `LockOrder.NoMutexCycle` has all five mutexes, without the joins. Waits on
  condition variables, for room in the queue, and for the end of a pause are not waits for a
  thread.
- Invariants.NextInv: takes a critical section of the inner mutex, of `status_mutex_` or of
  `state_mutex_` as one step, and so does every result for all runs.
- BlockingQueues.MPMCBlockingQueue.EnqueueIfNotFull: counts the discard inside the critical
  section; the source does so right after it, and nothing but the counter itself shows that.
