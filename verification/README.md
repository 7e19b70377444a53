# A verified model of the SimpleAwait runtime

SimpleAwait is a cooperative coroutine runtime in fixed memory: a scheduler with a fixed number of
slots, timers, events, bounded queues, flags that other contexts may signal, and a pool from which
coroutine frames are allocated. This project models those components and proves what they promise,
over every input, every interleaving and every run.

The project has three layers.

- **Specifications.** `SchedulerCore`, `SchedulerTimers`, `SchedulerHandles`, `SchedulerChildren` and
  `SchedulerPass` describe the scheduler as a value: slots, the ready FIFO, the wait FIFOs of all
  places, and three histories (every push on the ready FIFO, every resume, every handle given out).
  `FrameLayout`, `FrameAllocation` and `FramePoolModel` describe the frame pool as a tiling of the
  arena. `QueueModel` describes a queue as three FIFOs and relates it to a stream.
- **Classes.** `FramePools.FramePool`, `Schedulers.Scheduler`, `Schedulers.WaitQueue`, `Events.Event`,
  `Queues.Queue`, `ThreadSafeFlags.Registry`, `Tasks.FrameHeap` and `Clock.Micros32Extender` are the
  code: headers in the arena, intrusive links, a ring of raw cells, loops, 32-bit and word-sized
  arithmetic. Each method is proved to make the step of the specification, or states outright what
  it promises.
- **The runtime machine.** `Runtime` puts everything into one state machine whose actions are single
  critical sections, single scheduler steps and single operations of user code. `set()` is two actions
  (its critical section, then the give of the semaphore), so other contexts come between any two
  actions of the scheduler. `RuntimeInv.Inv` is the global invariant, `RuntimeSteps.StepKeepsInv`
  says that every action keeps it, and `RuntimeRuns`, `RuntimePasses`, `RuntimeWakeups`, `RuntimeIdle`,
  `RuntimeQueues` and `RuntimePool` draw the promises over whole runs from it. `RuntimeEffects` says what
  each operation of user code does to the tasks and which errors it reports. `RuntimeTeardown` continues
  any run with the destruction of the scheduler.

Where the code and its documentation disagree, the model follows the code: timers with equal deadlines
wake in slot order (`src/simpleawait/scheduler.h:524-526`), while `CHANGELOG.md:45` speaks of FIFO
order; a finished slot is reused lowest index first (`src/simpleawait/scheduler.h:277-281`), while the
comment there says oldest first.

Four things that read like promises hold only under a condition, and the exact condition is proved.
A `set()` of a flag resumes the task that waits on it if and only if nobody takes the signal away from it
before the next pass. A `clear()` does so, and so does another task that awaits the flag: the single-waiter
error is reported only when that await finds no signal, while an await that finds one consumes it
(`src/simpleawait/threadsafeflag.h:89-96`), and the first task stays parked without an error
(`RuntimeWakeups.SetResumesIff`; `RuntimeWakeups.StolenByAwait` is such an input).
The tick conversion is exact if and only if the product of the sub-second part and the rate fits 64
bits, or the cap is reached all the same (`Clock.TimeoutExactIff`; `Clock.HugeRateIsWrong` is an input
for which it is not). The clock extender is exact if and only if successive samples are less than
2^32 microseconds apart (`Clock.RunIsExactIff`). Awaiting a child awaiter that owns no frame is reported,
and adopts nothing, if and only if the awaiter was made from an empty Task: the move of an awaiter
(`src/simpleawait/task.h:60-63`) and its first await empty it without a note, and a later await then
queues a slot without a frame, or destroys a null handle (`RuntimeAwaiters.OwnerlessAwait`;
`RuntimeAwaiters.MovedFromAwaiter` is such an input, and `RuntimeAwaiters.AwaitIsSafeIff` says that the
machine excludes nothing else).

Awaits are those of the running task. A slot index stands for a pointer to a slot, a number for a
frame, and the error hook is one that returns: its call is recorded in `Sys.errors` or in a result.

## Model

| member | source | states |
|---|---|---|
| RuntimeRuns.EveryRun | src/simpleawait/scheduler.h:151-169 | From the initial state every sequence of enabled actions, with other contexts interleaved anywhere, ends in a state with the global invariant: slot partition, well-founded parents, exact handles, signal and semaphore promises, single ownership of frames. |
| RuntimeSteps.StepKeepsInv | src/simpleawait/scheduler.h:290-379 | Each of the actions (critical sections, awaits, spawns, sets, scan rounds, timer scan, resumes, idle wait) keeps the global invariant. |
| RuntimeRuns.OnePlaceEach | src/simpleawait/scheduler.h:220-260 | Read out of the global invariant: a slot is in the ready FIFO iff its state is ready, on a wait place iff it is waiting_local, on at most one place, never twice in a list; `active_count_` is the number of slots neither free nor completed. |
| RuntimeRuns.OnePlaceInEveryRun | src/simpleawait/scheduler.h:220-260 | The same in every state of every run from the start of the runtime. |
| RuntimeRuns.BoundedFairPass | src/simpleawait/scheduler.h:339-379 | From snapshot to end of a pass, under any actions, exactly the slots ready at the snapshot are resumed, in FIFO order and once each, and the new ready FIFO is exactly what was pushed meanwhile, in push order. |
| RuntimePasses.SignaledWaiterResumes | src/simpleawait/threadsafeflag.h:148-186 | No lost wake-up: if an armed flag is signaled when a poll starts looking for signals, its waiter is resumed before that same pass ends, whatever other contexts do. |
| RuntimeWakeups.SetResumesWaiter | src/simpleawait/threadsafeflag.h:58-133 | No lost wake-up from the set to the resume: a task waits on a flag, or is between the failed consume and the park, and `set()` comes in any state of the scheduler; then by the end of any later whole pass, whatever happens before, between and after, the task was resumed, unless user code took the signal from it. |
| RuntimeWakeups.SetResumesIff | src/simpleawait/threadsafeflag.h:58-133 | After one `set()` the waiting task is resumed by the end of a later whole pass iff nobody took the signal before that pass. |
| RuntimeWakeups.StolenByAwait | src/simpleawait/threadsafeflag.h:89-96 | Another running task that awaits a signaled flag with a parked waiter takes its signal, without an error, and leaves the waiter parked. |
| RuntimeWakeups.StrandedRun | src/simpleawait/threadsafeflag.h:148-186 | No spurious wake-up: without a signal and without a `set()` the waiter stays parked and is not resumed, over every run. |
| RuntimeWakeups.SignalsConserved | src/simpleawait/threadsafeflag.h:58-97 | Over every run each signal is made by a `set()` of an unset flag and is taken exactly once, by a clear, an await or the scan, or is still there. |
| RuntimeWakeups.OneWakeEach | src/simpleawait/threadsafeflag.h:160-173 | Auto-reset: over every run the scan wakes a waiter exactly once for each signal it takes. |
| RuntimeRuns.IdleWaitIsSafe | src/simpleawait/detail/platform_idle.h:63-116 | No missed idle wake: at the semaphore take with a signaled armed flag, a token is there or a setter has yet to give one. |
| RuntimeIdle.NeverWaitsWithWork | src/simpleawait/scheduler.h:550-556 | In every run, whoever is at the semaphore take leaves no ready task behind, and there is a timer or a flag with a waiter to end the wait. |
| RuntimeIdle.DecidesIff | src/simpleawait/scheduler.h:550-556 | After a waiting pass the semaphore is waited on iff no task is ready and there is an unexpired timer, or no timer and a flag with a waiter. |
| RuntimeIdle.PassDecides | src/simpleawait/scheduler.h:594-600 | A complete pass of `poll_and_wait` comes to that decision, one of `poll` does not. |
| RuntimeIdle.TakesIff | src/simpleawait/detail/platform_idle.h:104-116 | The wait ends by a token or, with a timer, by its timeout, and in no other way; the take consumes the token. |
| RuntimeIdle.SignalEndsWait | src/simpleawait/detail/platform_idle.h:63-85 | A wait with a signaled armed flag can end at once, or after one give that a setter owes. |
| RuntimeIdle.SetEndsWait | src/simpleawait/threadsafeflag.h:58-72 | A `set()` of an unset flag during the wait owes the give that ends it. |
| RuntimeIdle.GivesConserved | src/simpleawait/threadsafeflag.h:58-72 | Over every run the gives that are owed are the changes of flags from unset to set less the gives made. |
| RuntimeIdle.SharedFollows | src/simpleawait/detail/platform_idle.h:63-85 | Token, semaphore, pending mark and owed gives change by the actions that the protocol names, and by no others. |
| RuntimeIdle.ScansIff | src/simpleawait/threadsafeflag.h:148-160 | A poll scans iff the mark is pending, and then all armed flags. |
| RuntimePasses.DelayTiming | src/simpleawait/scheduler.h:395-413 | A task that starts a delay d at sample t is not resumed by any pass that samples less than t + d, and the first pass that samples t + d or more resumes it. |
| RuntimePasses.DelayArms | src/simpleawait/scheduler.h:403-409 | A positive delay that fits 64 bits puts the running task to sleep until exactly the sample plus the delay, with no error. |
| RuntimePasses.DelayRequeues | src/simpleawait/detail/time_math.h:44-53 | A zero delay, or one whose deadline would pass 64 bits, puts the task at the tail of the ready FIFO; only the latter reports the overflow. |
| RuntimePasses.SleepsOn | src/simpleawait/scheduler.h:517-536 | Through any run whose samples are before the deadline, a sleeping task stays asleep with the same deadline. |
| RuntimePasses.NotBefore | src/simpleawait/scheduler.h:517-536 | Through such a run the sleeping task is not among the resumed slots. |
| RuntimePasses.WakesInTime | src/simpleawait/scheduler.h:151-169 | A sleeping task is resumed in the pass whose sample reaches its deadline. |
| RuntimePasses.ReadyRunsNext | src/simpleawait/scheduler.h:339-353 | The slots ready between two passes are the first ones that the next pass resumes, in order, and the next pass resumes no slot twice. |
| RuntimePasses.QueuedRunsOnceNext | src/simpleawait/scheduler.h:339-379 | Whoever is put on the ready FIFO during a pass, by whatever action, is not resumed in the rest of that pass and exactly once in the next. |
| RuntimePasses.ParentWaitsForNextPass | src/simpleawait/scheduler.h:355-369 | When a child returns, its waiting parent goes to the tail of the ready FIFO and is not resumed in the rest of that pass. |
| RuntimePasses.ParentRunsOnceNext | src/simpleawait/scheduler.h:355-369 | A parent is not resumed in the rest of the pass in which its child completed and was destroyed, and occurs exactly once among the resumes of the next pass, whatever happens in and between the two. |
| RuntimeEffects.GivesWayOnce | src/simpleawait/scheduler.h:384-413 | A task that yields, delays by nothing or beyond 64 bits, or gets no slot for a child, is at the tail of the ready FIFO, not resumed in the rest of the pass, and exactly once in the next. |
| RuntimeEffects.AdoptionFails | src/simpleawait/scheduler.h:433-437 | A child that finds no slot: its frame is destroyed, once, the limit is reported, nothing is adopted and the parent is requeued. |
| RuntimeEffects.AdoptionSucceeds | src/simpleawait/scheduler.h:438-451 | An adopted child is a new ready task in the lowest slot never used, else the lowest tombstone, with the running task as its parent, which waits; no other slot changes. |
| RuntimeEffects.SpawnEffect | src/simpleawait/scheduler.h:290-313 | An empty Task is reported; without a slot the limit is reported and the Task keeps its frame; else the frame is in a new ready task without a parent, last in the ready FIFO, and no other slot changes. |
| RuntimeEffects.OpaqueSuspends | src/simpleawait/scheduler.h:370-375 | A suspension without a wake source leaves the task suspended and on no list. |
| RuntimeEffects.SuspendedStays | src/simpleawait/scheduler.h:370-375 | Over every run such a task stays as it is and is never resumed. |
| RuntimeEffects.EventIsLatch | src/simpleawait/event.h:49-54 | Over every run an event is set iff the last of its sets and clears was a set. |
| RuntimeEffects.AwaitEventIff | src/simpleawait/event.h:33-62 | An await of a set event goes on and changes nothing; of an unset one it parks the task last. |
| RuntimeEffects.SetWakesAll | src/simpleawait/event.h:49-52 | A set makes all waiters of the event ready, in their order, and leaves none. |
| RuntimeEffects.WaitsForSet | src/simpleawait/event.h:33-62 | Until the event is set a waiting task is not resumed, and nobody who waits later gets before it. |
| RuntimeEffects.SetRunsWaitersNext | src/simpleawait/event.h:49-52 | After a set from within a pass each waiter runs exactly once in the next pass and not in the rest of this one. |
| RuntimeEffects.AwaitFlagIff | src/simpleawait/threadsafeflag.h:89-96 | An await of a signaled flag consumes the signal and goes on; of an unset one it comes to the park. |
| RuntimeEffects.ParkFlagIff | src/simpleawait/threadsafeflag.h:103-122 | The park is refused, with the error and no other change, iff the flag has a waiter; else the task is its waiter and the flag heads the armed list. |
| RuntimeEffects.ClockFollows | src/simpleawait/scheduler.h:161 | The scheduler's clock is the last sample, and only a poll samples. |
| RuntimeEffects.ErrorsExact | src/simpleawait/scheduler.h:290-313 | Each action reports exactly the errors of its case: pool exhausted, empty Task, no slot, reentry, second flag waiter, Task awaited twice, deadline overflow. |
| RuntimeEffects.TokenEffects | src/simpleawait/task.h:55-164 | After each operation on Tasks and awaiters: who owns which frame, which frame was destroyed, what the awaiter notes; every other object owns what it owned. |
| RuntimePlaces.PlaceStays | src/simpleawait/scheduler.h:455-510 | An action that does not touch a wait place leaves its waiters and their order alone. |
| RuntimeRuns.PoolEmpties | src/simpleawait/task.h:55-91 | With no owning Task or awaiter and no active task, no frame is allocated, and every frame ever made was destroyed exactly once. |
| RuntimeTeardown.TeardownDestroysOnce | src/simpleawait/scheduler.h:112-128 | Destroying the scheduler in any state of the global invariant, while destructors use Tasks and call back into it: every frame that a slot owned is destroyed in the teardown, exactly once and never before; no slot owns a frame afterwards; the frames left are exactly those of Tasks and awaiters. |
| RuntimeTeardown.TeardownOfEveryRun | src/simpleawait/scheduler.h:112-128 | The same after every run from the start; and when the last Task or awaiter is gone too, no frame is allocated and every frame made was destroyed once. |
| RuntimeTeardown.TeardownInOrder | src/simpleawait/scheduler.h:121-127 | If no destructor interferes, the frames destroyed are those destroyed before and then the owned ones in slot order, the very list of `Schedulers.Scheduler.Teardown`, and the frames left are those of the tokens there were. |
| RuntimePool.PoolIsEmpty | src/simpleawait/task.h:184-204 | Over every run, with frames of any sizes: the pool's live blocks are exactly the allocated frames, one each, no deallocation is ever refused, and with no owner left the pool is its one initial block with no bytes in use. |
| RuntimePool.StepBacks | src/simpleawait/task.h:184-204 | Every action asks the pool for at most one block or gives back at most one that is live. |
| RuntimeAwaiters.OwnerlessAwait | src/simpleawait/task.h:57-87 | An await of an awaiter that owns nothing is reported and adopts nothing iff it was made from an empty Task; else a slot without a frame is queued, or a null handle destroyed. |
| RuntimeAwaiters.AwaitIsSafeIff | src/simpleawait/task.h:57-87 | In every state of every run an await keeps the invariant and does what the code does iff the awaiter's note tells whether it owns a frame; otherwise a null handle is queued or destroyed. |
| RuntimeAwaiters.MovedFromAwaiter | src/simpleawait/task.h:60-63 | Making a Task, taking its awaiter, moving that and awaiting the moved-from one is such a case, from any state in which a task runs. |
| RuntimeFrames.MoveKeeps | src/simpleawait/task.h:109-127 | Moving a Task keeps one owner per allocated frame and destroys the overwritten frame only. |
| RuntimeFrames.TokensKeep | src/simpleawait/task.h:55-91 | Making, moving, awaiting and dropping Tasks and awaiters keeps one owner per allocated frame. |
| RuntimeFrames.DestroyKeeps | src/simpleawait/task.h:152-162 | Destroying what one owner gave up keeps single ownership, and the frame was never destroyed before. |
| RuntimeFrames.TakeKeeps | src/simpleawait/scheduler.h:298-302 | Scheduling and adoption move the frame from its Task to an empty slot and keep single ownership. |
| RuntimeFrames.FinishKeeps | src/simpleawait/scheduler.h:355-365 | Completion destroys the slot's frame and keeps single ownership. |
| RuntimeSignals.SetKeeps | src/simpleawait/threadsafeflag.h:58-72 | The critical section of `set()`, at any moment, keeps both promises about flags that are signaled. |
| RuntimeSignals.TestKeeps | src/simpleawait/threadsafeflag.h:160-169 | The critical section of one scan round keeps both promises. |
| RuntimeSignals.ParkKeeps | src/simpleawait/threadsafeflag.h:89-122 | Arming a flag whose signal came between consume and park loses nothing: the mark is pending. |
| SchedulerCore.AdoptKeeps | src/simpleawait/scheduler.h:424-453 | Adopting a child keeps the whole scheduler invariant, well-founded parent links included. |
| SchedulerCore.CompleteKeeps | src/simpleawait/scheduler.h:355-369 | A completed task, with or without a waiting parent, leaves a state with the whole invariant. |
| SchedulerCore.ParkKeeps | src/simpleawait/scheduler.h:460-472 | Parking the running task on a place keeps the invariant: one place per waiting slot. |
| SchedulerCore.WakeAllEffect | src/simpleawait/scheduler.h:476-481 | Waking a place empties it and appends its waiters, in order, to the ready FIFO. |
| SchedulerCore.WakeAllFrame | src/simpleawait/scheduler.h:476-481 | Waking one place leaves every other place and every slot field but the state as it was. |
| SchedulerTimers.FastPathRefinesScan | src/simpleawait/scheduler.h:517-520 | Skipping the scan because of the cached nearest deadline gives the very state that the full scan gives. |
| SchedulerTimers.WakesExactlyTheDue | src/simpleawait/scheduler.h:521-534 | The scan wakes exactly the due timers, each once, behind what was ready, by ascending (deadline, slot index), and changes no other slot. |
| SchedulerTimers.WakesInDeadlineOrder | src/simpleawait/scheduler.h:522-528 | Of two woken timers the first has the earlier deadline, or the same one and the lower slot. |
| SchedulerTimers.WokenAscend | src/simpleawait/scheduler.h:522-528 | Of two woken timers the earlier one has the smaller deadline, or the same and the lower slot, and both are due. |
| SchedulerTimers.ProcessDueKeeps | src/simpleawait/scheduler.h:517-546 | After the timer step the cached deadline is again the minimum over the waiting timers, and the rest of the invariant holds. |
| SchedulerTimers.NoneDueAfter | src/simpleawait/scheduler.h:517-536 | No timer is due after the timer step. |
| SchedulerHandles.HandlesUnique | src/simpleawait/scheduler.h:270-284 | Two acquisitions never give the same slot and generation. |
| SchedulerHandles.HandleMeaning | src/simpleawait/scheduler.h:201-214 | A handle is valid iff its slot has not been acquired again since it was issued, and done iff moreover its own task completed. |
| SchedulerHandles.ScheduleFailsIff | src/simpleawait/scheduler.h:270-313 | Scheduling fails iff every slot is active or retired at the last generation; it then changes nothing; otherwise the new handle is the last one issued, valid and not done. |
| SchedulerHandles.AcquiresFreeFirst | src/simpleawait/scheduler.h:270-284 | A slot is acquired iff it is the lowest one never used and not retired, or there is none such and it is the lowest tombstone; none is acquired iff there is neither. |
| SchedulerHandles.DoneHandleLasts | src/simpleawait/scheduler.h:270-284 | A spawn makes the handle of a finished task invalid iff no slot is left that was never used and its own is the lowest tombstone; else it stays valid and done. |
| SchedulerChildren.ChainsAcyclic | src/simpleawait/scheduler.h:424-453 | A chain of parents and children never meets a slot twice. |
| SchedulerChildren.OneChild | src/simpleawait/scheduler.h:424-453 | A slot waiting on a child has exactly one child, and it is active. |
| SchedulerChildren.ChainEnds | src/simpleawait/scheduler.h:424-453 | From any active slot the chain of children ends in an active slot that waits on no child. |
| SchedulerPass.PassIsFair | src/simpleawait/scheduler.h:339-379 | Whatever the resumed coroutines do (spawn, set events, wake what waits first at a queue or flag, end their resume in any way), the loop resumes exactly the snapshot, in order, and leaves exactly the later pushes ready. |
| SchedulerPass.RoundResumesHead | src/simpleawait/scheduler.h:343-378 | One round resumes the head of the FIFO and nobody else and keeps the invariant. |
| Schedulers.WaitQueue.constructor | src/simpleawait/scheduler.h:232-260 | A new wait queue is empty. |
| Schedulers.Scheduler.ReadyPush | src/simpleawait/scheduler.h:315-324 | The intrusive list gets the slot at its tail; the wait queues that share the links keep their members. |
| Schedulers.Scheduler.ReadyPop | src/simpleawait/scheduler.h:326-337 | The head of the ready list comes out and the rest keeps its order; all wait queues keep theirs. |
| Schedulers.Scheduler.PushBack | src/simpleawait/scheduler.h:238-246 | The slot is appended to one wait queue; the ready list and the other queues keep their members. |
| Schedulers.Scheduler.PopFront | src/simpleawait/scheduler.h:247-257 | The head of one wait queue comes out and is on no list; nothing comes out of an empty one; every other list keeps its members. |
| Schedulers.Scheduler.AcquireSlot | src/simpleawait/scheduler.h:270-284 | The lowest slot never used and not retired, else the lowest such tombstone, with its generation raised; none iff there is neither. |
| Schedulers.Scheduler.Schedule | src/simpleawait/scheduler.h:290-313 | The slots, lists and handle of the specified scheduling step; during a teardown, in any state at all, refused without any change. |
| Schedulers.Scheduler.YieldCurrent | src/simpleawait/scheduler.h:384-389 | The running task is requeued and the class invariant kept. |
| Schedulers.Scheduler.ArmCurrentTimer | src/simpleawait/scheduler.h:395-413 | The timer step, with the cached deadline, and whether the deadline overflowed. |
| Schedulers.Scheduler.StartChildAwait | src/simpleawait/scheduler.h:424-453 | Adopted iff some slot can be acquired: the child is a new ready task with the running one as its waiting parent; else the running task is ready again at the tail of the FIFO and nothing else changed. |
| Schedulers.Scheduler.WaitOn | src/simpleawait/scheduler.h:460-472 | The running task is parked on the event's queue. |
| Schedulers.Scheduler.ParkRunning | src/simpleawait/scheduler.h:497-500 | The running task is parked on a list kept elsewhere. |
| Schedulers.Scheduler.WakeSlot | src/simpleawait/scheduler.h:505-510 | The oldest waiter of such a list becomes ready. |
| Schedulers.Scheduler.WakeAll | src/simpleawait/scheduler.h:476-481 | The loop over the intrusive queue makes the specified wake of all waiters in FIFO order. |
| Schedulers.Scheduler.FindSoonest | src/simpleawait/scheduler.h:522-528 | The inner loop finds the due timer with the least (deadline, slot index), if any. |
| Schedulers.Scheduler.ProcessDueTimers | src/simpleawait/scheduler.h:517-536 | Fast path and loop together make the specified timer step, and terminate. |
| Schedulers.Scheduler.RecomputeNearestDeadline | src/simpleawait/scheduler.h:538-546 | The cached deadline becomes the minimum over the waiting timers. |
| Schedulers.Scheduler.RunPass | src/simpleawait/scheduler.h:339-379 | The loop resumes exactly the old ready FIFO, in order, and leaves ready exactly what was pushed during the pass. |
| Schedulers.Scheduler.RunPollPass | src/simpleawait/scheduler.h:151-169 | Sample, timers and pass in that order; refused without any change on reentry (an error) and during a teardown in any state at all (no error). |
| Schedulers.Scheduler.Teardown | src/simpleawait/scheduler.h:112-128 | From any state and whatever the destructors ask of the scheduler meanwhile: every slot that owned a frame is a tombstone without one, the frames released are theirs, each once in slot order, and nothing else changed. |
| Schedulers.Scheduler.Reenter | src/simpleawait/scheduler.h:113-119 | Polls and spawns that come back during the teardown are refused and change nothing. |
| Events.Event.Set | src/simpleawait/event.h:49-52 | All waiters become ready in FIFO order; a set event has none. |
| Events.Event.Clear | src/simpleawait/event.h:53 | The event is unset and stays consistent with its waiters. |
| Events.Event.Wait | src/simpleawait/event.h:33-62 | An await suspends iff the event is unset, and then parks the running task at the tail of the event's FIFO. |
| Events.Event.Destruct | src/simpleawait/event.h:27-31 | The error is reported iff some task still waits. |
| ThreadSafeFlags.Registry.Set | src/simpleawait/threadsafeflag.h:58-72 | The flag is signaled and the mark pending, at any moment, and the semaphore is due iff the flag was unset. |
| ThreadSafeFlags.Registry.Clear | src/simpleawait/threadsafeflag.h:74-77 | Only the signal of this flag goes. |
| ThreadSafeFlags.Registry.Consume | src/simpleawait/threadsafeflag.h:89-96 | The signal is taken if it is there, and reported. |
| ThreadSafeFlags.Registry.Park | src/simpleawait/threadsafeflag.h:103-122 | Refused iff there is a waiter; else the flag heads the armed list, and a signal that came since consume is still marked pending. |
| ThreadSafeFlags.Registry.Unarm | src/simpleawait/threadsafeflag.h:123-133 | The flag leaves the armed list from any position; the others keep their order. |
| ThreadSafeFlags.Registry.PollExternalSignals | src/simpleawait/threadsafeflag.h:148-186 | With other contexts calling `set()` before every critical section: exactly the flags signaled when tested are unlinked and their waiters woken, in list order; the others stay armed in order; afterwards a tested flag is signaled iff it was set again after its test, and then the mark is pending. |
| Queues.Queue.StoreBack | src/simpleawait/queue.h:218-222 | The tail cell was raw and holds the value now; live cells are exactly the wrapped window from `head_` of length `count_`. |
| Queues.Queue.PopFrontStorage | src/simpleawait/queue.h:223-227 | The head cell was live, its payload is destroyed once, and the window shrinks by it. |
| Queues.Queue.ParkSender | src/simpleawait/queue.h:257-272 | The awaiter is the last of the parked senders. |
| Queues.Queue.SendPopFront | src/simpleawait/queue.h:273-282 | The oldest parked sender comes out unlinked; the rest keeps its order. |
| Queues.Queue.UnlinkSender | src/simpleawait/queue.h:285-302 | A sender leaves from any position; the rest keeps its order, head and tail are right. |
| Queues.Queue.ParkReceiver | src/simpleawait/queue.h:304-319 | The awaiter is the last of the parked receivers. |
| Queues.Queue.RecvPopFront | src/simpleawait/queue.h:320-329 | The oldest parked receiver comes out unlinked, with a raw result cell. |
| Queues.Queue.UnlinkReceiver | src/simpleawait/queue.h:330-347 | A receiver leaves from any position; the rest keeps its order, head and tail are right. |
| Queues.Queue.DoSend | src/simpleawait/queue.h:231-244 | The step of the queue model; with a parked receiver the value is constructed in that receiver's raw result cell. |
| Queues.Queue.AdmitOldestSender | src/simpleawait/queue.h:249-255 | The oldest parked sender's value is the newest buffered one, and its slot is woken; nothing happens without one. |
| Queues.Queue.TryReceive | src/simpleawait/queue.h:191-199 | The step of the queue model: oldest value out, oldest sender in. |
| Queues.Queue.ReceiveReady | src/simpleawait/queue.h:112-120 | The same for an await, with the value constructed in the awaiter's own cell. |
| Queues.Queue.Destruct | src/simpleawait/queue.h:42-61 | Every parked awaiter is detached, every payload ever constructed in a ring cell is destroyed exactly once, all cells are raw; an error iff someone was parked. |
| Queues.ReceiveAwaiter.TakeResult | src/simpleawait/queue.h:155-163 | The result is moved out, the stored copy destroyed once and the cell raw again, and `has_result_` says so. |
| Queues.ReceiveAwaiter.Construct | src/simpleawait/queue.h:168-172 | A payload is constructed in a raw result cell only, and `has_result_` is true iff the cell is live. |
| Queues.ReceiveAwaiter.Destroy | src/simpleawait/queue.h:103-110 | A parked receiver leaves its queue, the others in order; a result never consumed is destroyed; whatever was constructed in the cell was destroyed exactly once; an awaiter that is not linked does not touch the queue. |
| Queues.SendAwaiter.Destroy | src/simpleawait/queue.h:72-76 | A parked sender leaves its queue, the others in order; one that is not linked does not touch the queue. |
| Queues.QueueGoesFirst | src/simpleawait/queue.h:42-61 | The queue is destroyed before its awaiters: over ring and result cells every payload constructed is destroyed exactly once. |
| RuntimeQueues.QueueIsAStream | src/simpleawait/queue.h:229-271 | In every run of the whole runtime the operations on one queue form a stream, and its fill, its parked senders and its parked receivers are the counts that the numbers of sends and receives give. |
| RuntimeQueues.RunAgrees | src/simpleawait/queue.h:229-329 | Seen from one queue, any run of the machine is the run of the queue model on that queue's operations, with any values: same slots parked in the same order, no action elsewhere disturbs it. |
| RuntimeQueues.SendAgrees | src/simpleawait/queue.h:231-244 | The machine's send and the queue model's send go through together and wake the same slot. |
| RuntimeQueues.ReceiveAgrees | src/simpleawait/queue.h:112-120 | The machine's receive and the queue model's receive go through together and wake the same slot. |
| QueueModel.EveryRunIsAStream | src/simpleawait/queue.h:229-255 | Over any run, with S values sent and R receives started, the k-th receive gets exactly the k-th value sent, and buffer, parked senders and parked receivers are functions of the values sent and of R. |
| QueueModel.CountsDecide | src/simpleawait/queue.h:231-244 | Buffered, parked senders and parked receivers are clamp(S - R, 0, capacity), max(0, S - R - capacity) and max(0, R - S); an operation goes through without parking iff these counts say so, so none overtakes a parked one. |
| QueueModel.StreamSent | src/simpleawait/queue.h:231-244 | A send that goes through, by hand-off or buffering, keeps the stream. |
| QueueModel.StreamReceived | src/simpleawait/queue.h:191-199 | A receive that goes through keeps the stream. |
| FramePoolModel.AllocateCorrect | src/simpleawait/detail/frame_pool.h:77-128 | In terms of the alignment asked for: a power of two is always honoured. Above the default the request fails iff it is no power of two or no maximal free gap holds it, and else gets the lowest address that does; at or below the default it is served as one for the default, by the same law. Success adds one fresh block at the start of a gap, taken whole with bounded slack or leaving at least a header and an alignment unit; failure changes the failure count only. |
| FramePoolModel.DeallocateCorrect | src/simpleawait/detail/frame_pool.h:133-155 | A live address removes exactly its own block and leaves every other block where it was; the error is reported iff the address is neither null nor live. |
| FramePoolModel.RunKeepsLayout | src/simpleawait/detail/frame_pool.h:62-155 | Over all sequences of operations the blocks tile the arena, aligned and large enough, with no two free neighbours, and `bytesUsed_` is the sum of the live sizes. |
| FramePoolModel.CountersTell | src/simpleawait/detail/frame_pool.h:115-127 | Over every run from a new pool the peak is the most bytes that were ever in use and the failure count is the number of failed allocations, up to the wrap of the word. |
| FramePoolModel.RunsAreCanonical | src/simpleawait/detail/frame_pool.h:192-206 | Two histories with the same live blocks have the same block list and the same bytes used. |
| FramePoolModel.DrainRecovers | src/simpleawait/detail/frame_pool.h:133-155 | Freeing every live address, in any order and with any strays, gives back the single initial block and zero bytes used. |
| FrameLayout.LayoutCanonical | src/simpleawait/detail/frame_pool.h:192-206 | A coalesced layout is determined by its live blocks. |
| FrameLayout.FullRecovery | src/simpleawait/detail/frame_pool.h:62-69 | A layout without live blocks is the initial one. |
| FrameLayout.AddressesDistinct | src/simpleawait/detail/frame_pool.h:113-119 | Payload addresses of live blocks are pairwise distinct even for zero-size requests, never null, never past the arena. |
| FrameLayout.PayloadsDisjoint | src/simpleawait/detail/frame_pool.h:43-47 | A payload byte is in no header and in no other payload. |
| FrameAllocation.TakenFacts | src/simpleawait/detail/frame_pool.h:103-115 | The block that is taken is aligned, holds the request, and its slack is bounded. |
| FrameAllocation.TakenTightly | src/simpleawait/detail/frame_pool.h:104-112 | The block is taken whole, or with slack below an alignment unit, leaving room for a header and an alignment unit. |
| FrameAllocation.PlaceSound | src/simpleawait/detail/frame_pool.h:103-119 | Splitting and marking keep the layout and add exactly the taken block. |
| FrameAllocation.GapIsFreeBlock | src/simpleawait/detail/frame_pool.h:86-124 | The maximal gaps between live blocks are exactly the free blocks. |
| FrameAllocation.FirstFitComplete | src/simpleawait/detail/frame_pool.h:86-127 | The search finds a block iff some maximal gap holds an aligned address at least a header past its start with room for the request. |
| FrameAllocation.FirstFitLowest | src/simpleawait/detail/frame_pool.h:86-124 | The first fit gives the lowest address at which the request could be placed at all. |
| FrameAllocation.ReleasedSound | src/simpleawait/detail/frame_pool.h:143-148 | Freeing and merging keep the layout and remove exactly the one block. |
| FramePools.IsPowerOfTwo | src/simpleawait/detail/frame_pool.h:173-175 | The bit test recognises exactly the powers of two. |
| FramePools.AlignPadding | src/simpleawait/detail/frame_pool.h:181-185 | The masked word arithmetic gives the least padding to the next multiple. |
| FramePools.RoundUp | src/simpleawait/detail/frame_pool.h:187-189 | The masked word arithmetic gives the next multiple. |
| FramePools.ClientWritesKeepHeaders | src/simpleawait/detail/frame_pool.h:37-47 | Writes inside live payloads change no header. |
| FramePools.FramePool.Reset | src/simpleawait/detail/frame_pool.h:62-69 | The pool is as new. |
| FramePools.FramePool.Allocate | src/simpleawait/detail/frame_pool.h:77-128 | The loop over in-arena headers, in word arithmetic with 32-bit header fields, makes the specified allocation for every word-sized request; a power-of-two alignment is honoured, and it fails iff the alignment above the default is no power of two or no gap holds the request. |
| FramePools.FramePool.FindFit | src/simpleawait/detail/frame_pool.h:86-124 | The walk stops at the lowest fit, iff there is one. |
| FramePools.FramePool.Take | src/simpleawait/detail/frame_pool.h:103-120 | Split, mark and account: headers and counters represent the new layout. |
| FramePools.FramePool.Deallocate | src/simpleawait/detail/frame_pool.h:133-155 | The loop makes the specified deallocation and reports the specified error. |
| FramePools.FramePool.Coalesce | src/simpleawait/detail/frame_pool.h:192-206 | From any tiling, however many free neighbours, the loop reaches a layout without free neighbours and the same live blocks, and terminates. |
| Tasks.FrameHeap.Create | src/simpleawait/task.h:168-204 | A new frame has one owner, the returned Task; if the pool is exhausted (its own answer, in `RuntimePool`) that Task is empty and nothing changed. |
| Tasks.FrameHeap.MoveConstruct | src/simpleawait/task.h:109 | The token passes and the source is empty. |
| Tasks.FrameHeap.MoveAssign | src/simpleawait/task.h:111-127 | The source may live inside the frame that is destroyed: its frame still survives, owned by the destination; the old frame goes, with what it alone owns. A destination inside that frame ends with it. |
| Tasks.FrameHeap.Reset | src/simpleawait/task.h:152-162 | The frame is destroyed exactly once even though destructors of what is inside run meanwhile; a Task outside the region is untouched. |
| Tasks.FrameHeap.Destroy | src/simpleawait/task.h:152-162 | Destruction cascades through the Tasks inside, terminates, stays within every region closed under ownership, empties everything inside what it destroys, and leaves one owner per frame. |
| Tasks.FrameHeap.CoAwait | src/simpleawait/task.h:141-145 | The Task is consumed and the awaiter owns the frame, or knows that there was none. |
| Tasks.FrameHeap.MoveAwaiter | src/simpleawait/task.h:60-63 | The moved-from awaiter owns nothing. |
| Tasks.FrameHeap.AwaitSuspend | src/simpleawait/task.h:74-81 | Whatever the awaiter owns, a null handle included, is handed over and the awaiter is empty: to a slot if adopted, else it is destroyed once. |
| Tasks.FrameHeap.Await | src/simpleawait/task.h:73-88 | For an awaiter without a frame: reported iff it was made from an empty Task, a null handle handed over iff not; for an owning one the frame ends up in a slot iff adopted. |
| Tasks.FrameHeap.TakeFrame | src/simpleawait/task.h:209-213 | A slot becomes the only owner. |
| Tasks.FrameHeap.Release | src/simpleawait/scheduler.h:112-128 | A slot's frame, detached first, is destroyed once with what it alone owns. |
| Tasks.FrameHeap.NoOwnerNoFrame | src/simpleawait/task.h:10-14 | With no owner left no frame is allocated, and every frame made was destroyed. |
| Clock.TimeoutExactIff | src/simpleawait/detail/platform_idle.h:27-53 | The timeout is the capped ceiling of the remaining time in ticks iff the sub-second product does not wrap, or the cap is reached anyway. |
| Clock.TimeoutExact | src/simpleawait/detail/platform_idle.h:27-53 | For every positive rate for which 999999 times it fits 64 bits the timeout is min(maximum, ceil(remaining * rate / 1000000)). |
| Clock.HugeRateIsWrong | src/simpleawait/detail/platform_idle.h:41-42 | A rate for which the product wraps and the timeout is too short. |
| Clock.NeverEarly | src/simpleawait/detail/platform_idle.h:27-53 | For the same rates an uncapped timeout covers the remaining time, by less than one tick, and is positive. |
| Clock.FiniteStaysFinite | src/simpleawait/detail/platform_idle.h:87-100 | A finite deadline never becomes the endless wait, the cast to 32 bits loses nothing, and the timeout is zero iff the deadline has passed. |
| Clock.ForeverIff | src/simpleawait/detail/platform_idle.h:87-100 | The wait is endless iff the deadline is the largest number, which stands for none. |
| Clock.ZeroIff | src/simpleawait/detail/platform_idle.h:27-34 | The timeout is zero iff the deadline has passed or there are no ticks to wait. |
| Clock.Micros32Extender.Extend | src/simpleawait/detail/platform_clock.h:36-47 | The fields and the value of the specified extension, in 32-bit words. |
| Clock.ExtendsExactly | src/simpleawait/detail/platform_clock.h:36-47 | From an extender that shows the true time, the next sample is true iff less than 2^32 microseconds passed. |
| Clock.RunIsExactIff | src/simpleawait/detail/platform_clock.h:31-47 | On any monotonic run of samples all readings are the true 64-bit times iff the first is below 2^32 and all gaps are. |

## Left out

- C++ coroutine mechanics (promise hooks, placement new, `std::launder`, frame layout): a coroutine is a sequence of runtime operations, a frame an identity.
- Hardware and RTOS calls, interrupt masking and the ISR variant of the give: critical sections are atomic, the clock is a number per poll, the semaphore one bit.
- The cross-core `set()` of RP2040: the shipped critical section does not exclude the other core, and the model assumes that critical sections are atomic.
- Awaits by a coroutine that is not the running one (`invalid_task` in `wait_on`, `running_is`, `start_child_await`): the awaiting coroutine is the running task, and `await_ready` and `await_suspend` of events and queues run back to back. For flags, `set()` may come between them.
- The halting error hook and the endless loop of `await_resume` without a value: the hook returns, and its call is recorded.
- User code in destructors outside a teardown: `Tasks` models the destructors of Tasks inside a frame, but not destructors that spawn, poll, set events or assign to other Tasks while the scheduler lives on.
- Runtime.Step: a frame's own parameters are not destroyed within the same action as the frame; their Tasks are dropped by later actions, while the cascade itself is proved in `Tasks`.
- Runtime.Buffer: the machine keeps how full a queue is, not the values; `RuntimeQueues` gives the values back by relating its runs to `QueueModel`, whose steps the class `Queues.Queue` makes.
- Schedulers.Scheduler.RunPass: of what a resumed coroutine does the class has what reaches the scheduler (spawns, event sets, wakes of the first waiter of a queue or flag, and the way the resume ends); the objects' own state changes interleave in the `Runtime` machine.
- Schedulers.Scheduler.RunPollPass: the signal step between the clock sample and the timers is `ThreadSafeFlags.Registry.PollExternalSignals`, and the order of all four steps is that of the `Runtime` machine.
- Queues.Queue.DoSend: returns the slot to be woken instead of calling `wake_slot`; `Schedulers.Scheduler.WakeSlot` is that call.
- The links of the slots are an array beside the slot array instead of a field in each slot, and the scheduler knows the wait queues of the events that exist through a map, which stands for their addresses.
- Scheduler teardown is a machine of its own (`RuntimeTeardown`) that starts in any state of the runtime, because nothing but destructors runs after it; in it a destructor is a sequence of uses of Tasks and refused calls.
- The destruction of an event, a queue or a flag while tasks are parked on it is no action of the `Runtime` machine: with a hook that returns, the code leaves such a slot waiting_local with no place that holds it, so it stays active and is never woken, and the slot partition would fail. The destructors themselves are `Events.Event.Destruct`, `Queues.Queue.Destruct` and `ThreadSafeFlags.Registry.Unarm`.
- RuntimeRuns.EveryRun: an awaiter that lost its frame to a move or an earlier await is not awaited, since the code then resumes or destroys a null handle, which has no defined result; `RuntimeAwaiters` shows what happens up to that point and that nothing else is excluded.
- A timer whose deadline is exactly the largest 64-bit number counts as no timer in the idle wait, as in the code; the theorem about the idle wait therefore speaks of flags.
- `force_slot_generation`, diagnostics snapshots and peak counts of the scheduler, `waitUntil`, the delay wrappers, configuration headers, examples and build scripts: they would only add easy members.
