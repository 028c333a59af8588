# Verified model of the LK bootloader's core

LK ("little kernel") is a small bootloader kernel. This project models the parts of it that carry
state, loops and invariants of their own, and proves what they keep and what they promise:

* **Scheduler and blocking primitives** (`kernel/thread.c`, `mutex.c`, `event.c`, `dpc.c`, `timer.c`).
  `Scheduler` and `KernelModel` give the kernel as a state machine: one step is one critical section
  and ends where `thread_resched` switches; what follows a blocked call's switch is a step of its own
  (`Return`). Interrupts (tick, preempt, wake without reschedule) are steps that may come whatever
  thread runs. `KernelSteps` proves the invariant of `SchedulerInv` and `KernelInv` for every step and
  every run; `MutexTheorems`, `WaitTheorems`, `TimeTheorems`, `EventTheorems`, `Urgency`, `ThreadFields`,
  `TimeSlices`, `SchedulerPlaces` and `RoundRobin` prove the safety and ordering results over whole runs.
  `KernelCode` is the code itself, with its run-queue bitmap,
  count-leading-zeros choice, wait-queue counts and draining loops updated in place; `KernelRun`
  shows that this code carries out every legal run and stays in step with the state machine.
* **Timers** (`kernel/timer.c`): `TimerQueue`, `TimerTick` and `TickTheorems`, the sorted queue and the firing
  loop with arbitrary callbacks that cancel and re-arm.
* **Lists** (`include/list.h`): `List`, the circular doubly linked list on heap nodes. The queues of the
  other modules are the sequences that such rings hold.
* **Kernel heap** (`lib/heap/heap.c`): `HeapTiles` sees the memory as tiles, `HeapLaws` proves the laws of
  allocation and coalescing over all histories, `HeapList` and `HeapCode` are the free list and the words
  in memory, updated in place. Addresses are numbers, a pointer is 4 bytes, both headers are 12 bytes.
  The search cursor of `heap_insert_free_chunk` ends as the list head seen as a chunk; the heap is created
  with the head's address outside `(base, base + len]`, where no chunk can end.
* **NAND images** (`platform/msm_shared/nand_wince.c`): `NandModel` says what a stored image is, `NandCode`
  writes and reads it over a device on which every erase, page write, bad-block mark and page read may
  fail at any time.
* **Memory and number routines** (`lib/libc`): `MemorySpec` and `MemoryCode` for the word-at-a-time
  `memmove`, `memcpy` and `memset`; `Numbers`, `NumberCode`, `Printf` and `Formats` for the formatters and
  parsers; `Bits` for the bitwise arithmetic they share with the bitmap and the alignment masks.

Some obvious-looking claims are false of the code. The model keeps the code's behaviour and states
exactly when the claim holds:

* A waiter can be left blocked, without timeout, on a mutex nobody owns. `MutexTheorems.StrandedExactlyWhen`
  says which acquire does it, `StrandedRun.FreeMutexStrandsItsWaiter` is a run from boot that does it, and
  `MutexTheorems.StrandedForever` says that nothing wakes the waiter afterwards. With infinite timeouts
  only, it cannot happen (`MutexTheorems.FirstComeFirstServed`); over any run, timeouts and all, it happens
  exactly when such an acquire is in the run (`MutexTheorems.ServedThroughoutExactly`).
* Reading back an image reports failure when the image ends on the partition's last page:
  `NandModel.RoundTrip`, `NandModel.EndsOnLastPage`. And it is certain to deliver the image exactly when the
  writer lost no block, that is, gave none up without the device reporting it bad: `NandModel.CertainExactly`;
  `NandModel.LostBlockIsRead` is a device on which something else is delivered.
* `flash_read_ext` rounds the byte count up in 32 bits, and asks for no page at all when that wraps:
  `NandCode.PageCountExactly`.
* `heap_alloc` computes the padded size in 32 bits; it is the size needed exactly when that does not wrap:
  `HeapTiles.SizeWordExactly`. The laws of the heap are stated for requests that do not wrap.
* Waking all waiters does not keep their order: of equal priority, the last to have queued up runs first
  (`SchedulerPlaces.WakeAllPlaces`).
* `memmove` compares addresses as signed words and counts bytes in an `int`: `MemorySpec.MemmoveExactly`.
* `vsnprintf` keeps within its limit exactly when the limit is at least two, or is one and there is nothing
  to print: `Printf.Vsnprintf`.
* `atoul` undoes `%#X` for zero only, and `atol` undoes `%+d` only for numbers that are not positive:
  `Numbers.AtoulMissesCapitalPrefix`, `Numbers.AtolStopsAtPlus`.

`dafny verify dfyconfig.toml` checks the whole project.

## Model

| member | source | states |
|---|---|---|
| SchedulerInv.QueuesFollowState | kernel/thread.c:65-89 | In every state that keeps the invariant a thread is on at most one queue, and on which one follows from its own fields: READY on the run queue of its priority, BLOCKED on the list of its blocking wait queue, RUNNING exactly the current thread, all others on none |
| SchedulerInv.ReschedOk | kernel/thread.c:221-308 | thread_resched always finds a thread to run, picks the head of the highest nonempty run queue, and afterwards no READY thread has a higher priority than the running one; the scheduler invariant holds again |
| SchedulerInv.YieldOk | kernel/thread.c:310-330 | thread_yield keeps the scheduler invariant and leaves nobody ready more urgent than whoever runs |
| SchedulerInv.PreemptOk | kernel/thread.c:332-355 | thread_preempt keeps the scheduler invariant and leaves nobody ready more urgent than whoever runs |
| SchedulerInv.ResumeThreadOk | kernel/thread.c:142-159 | thread_resume keeps the scheduler invariant, and of a suspended thread leaves nobody ready more urgent than whoever runs |
| SchedulerInv.BlockOk | kernel/thread.c:523-557 | Blocking on a wait queue, switch included, keeps the scheduler invariant and leaves nobody ready more urgent than whoever runs |
| SchedulerEffects.ResumeLook | kernel/thread.c:142-159 | thread_resume changes the view of no thread but the resumed one, which becomes active, and no wait queue |
| SchedulerEffects.BlockLook | kernel/thread.c:523-557 | Blocking puts the thread at the tail of exactly the wait queue named, blocked on it, and changes no other queue and no other thread's view |
| SchedulerInv.WakeOneOk | kernel/thread.c:559-596 | wait_queue_wake_one keeps the scheduler invariant, with and without reschedule; with it nobody ready is more urgent than whoever runs afterwards |
| SchedulerInv.WakeAllOk | kernel/thread.c:598-641 | wait_queue_wake_all keeps the scheduler invariant, with and without reschedule; with it nobody ready is more urgent than whoever runs afterwards |
| SchedulerInv.DrainedOk | kernel/thread.c:598-641 | The current thread, put on the run queue before the draining loop, is still there for the switch after it |
| SchedulerInv.UnblockOk | kernel/thread.c:653-685 | thread_unblock_from_wait_queue without reschedule keeps the scheduler invariant |
| SchedulerInv.DrainOk | kernel/thread.c:611-631 | The draining loop ends with the queue empty and changes who is running for nobody |
| SchedulerEffects.WakeOneLook | kernel/thread.c:566-592 | Exactly the longest waiter is woken, with the waker's value; everybody else's place and wait result are untouched |
| SchedulerEffects.DrainLook | kernel/thread.c:611-631 | Every waiter is woken with the waker's value and nobody else is touched |
| SchedulerEffects.UnblockLook | kernel/thread.c:662-684 | A timeout that comes after the wake-up changes nothing at all; one that comes before wakes exactly its thread with its value |
| SchedulerPlaces.YieldPlaces | kernel/thread.c:310-330 | With the caller at the tail of its queue, the head of the highest nonempty queue runs and all else stays |
| SchedulerPlaces.PreemptPlaces | kernel/thread.c:332-355 | The same for a preempted thread, at the head of its queue if it has time left and at the tail if not |
| SchedulerPlaces.PreemptGivesWay | kernel/thread.c:347-352 | With nobody more urgent ready: a thread with time left, or alone at its priority, runs on; one without gives way to the next of its priority and queues last |
| SchedulerPlaces.PreemptYieldsUp | kernel/thread.c:347-352 | With somebody more urgent ready: the first of the most urgent runs, and the preempted thread waits first or last in its queue by its time |
| SchedulerPlaces.ResumeHandsOver | kernel/thread.c:142-159 | A resumed thread at least as urgent as the caller runs at once; a less urgent one waits at the head of its queue while the caller still queues behind its equals |
| SchedulerPlaces.BlockPlaces | kernel/thread.c:523-550 | When the caller blocks, the head of the highest nonempty queue runs and all other run queues stay |
| SchedulerPlaces.RetirePlaces | kernel/thread.c:185-208 | The same when the caller dies or goes to sleep |
| SchedulerPlaces.SleepWakePlaces | kernel/thread.c:385-399 | A sleeper wakes at the head of its run queue and whoever runs runs on |
| SchedulerPlaces.UnblockPlaces | kernel/thread.c:653-685 | A timed-out waiter wakes at the head of its run queue and whoever runs runs on |
| SchedulerPlaces.WakeOnePlaces | kernel/thread.c:559-596 | Without reschedule the woken thread is at the head of its queue and the caller runs on; with it the caller is put at the head of its own first and the woken thread ahead of it, and the head of the highest queue runs |
| SchedulerPlaces.WakeOneHandsOver | kernel/thread.c:579-592 | With reschedule and nobody more urgent ready: a woken thread at least as urgent as the caller runs at once, the caller ready right behind it; a less urgent one waits at the head of its queue and the caller runs on |
| SchedulerPlaces.WakeAllPlaces | kernel/thread.c:598-641 | Each run queue gets its waiters in front, the last to have queued up first, and the caller behind them in its own if it steps back; then the head of the highest queue runs |
| SchedulerPlaces.WakeAllHandsOver | kernel/thread.c:598-641 | With reschedule and nobody more urgent ready: of the most urgent waiters, if at least as urgent as the caller, the last to have queued up runs; otherwise the caller runs on |
| KernelInv.InitOk | kernel/thread.c:420-441 | The boot state keeps the invariant of the whole kernel: one thread, of the highest priority, and nothing queued, armed or signalled |
| KernelSteps.StepKeepsInv | kernel/thread.c:142-685 | Main theorem: every enabled step of the kernel, interrupts included, keeps the invariant: one running thread, queues that follow the thread states, timers only for sleepers and timed waiters, mutex accounting, no waiter on a signalled event, no lost deferred call |
| KernelSteps.RunKeepsInv | kernel/main.c:66-118 | The invariant holds in every state reachable from boot |
| KernelSteps.ReachableQueues | kernel/thread.c:65-685 | In every state reachable from boot exactly the current thread is running; each READY thread is on exactly the run queue of its priority and each BLOCKED one on exactly the list of its blocking wait queue, once; all others are on none; the idle thread is READY or RUNNING |
| KernelViews.StepWaked | kernel/thread.c:507-685 | Any step leaves each call of wait_queue_block in progress untouched, or wakes it with the value of that step, and only the steps entitled to that call do |
| KernelViews.StepQueue | kernel/thread.c:535-541 | A wait queue none of whose waiters the step may wake only grows, by the thread that blocks on it, at its tail |
| KernelViews.StepCalls | kernel/thread.c:523-557 | The set of unreturned calls of wait_queue_block changes only by the running thread entering or leaving one |
| Urgency.StepView | kernel/thread.c:98-685 | The whole effect of any step on the state, wait queue and wait result of any thread: who is created, readied, put to sleep, blocked, woken with which value, dead or freed, and that nothing else changes |
| Urgency.SwitchTop | kernel/thread.c:142-641 | After every step that reschedules (resume, a release, signal, deferred call or destruction that wakes with reschedule, yield, preempt, tick, sleep, exit and every call that blocks) no ready thread is more urgent than the running one |
| Urgency.StayTop | kernel/thread.c:142-641 | Every other step leaves the same thread running, and at the top unless it wakes without reschedule or makes the running thread less urgent |
| Urgency.MostUrgentRuns | kernel/thread.c:221-308 | Over every run from boot: no ready thread is more urgent than the running one, except between a step that wakes without reschedule or lowers the running thread's priority and the next one that reschedules |
| ThreadFields.StepFields | kernel/thread.c:98-467 | The whole effect of any step on the set of threads, their priorities and their time: only thread_create adds a thread and only its cleanup frees one; priority is what creation or thread_set_priority says; a tick takes one from the running thread unless it is idle, yield and resume take all from the caller, and a thread switched to without time gets five ticks |
| ThreadFields.IdleAfter | kernel/thread.c:461-467 | The idle thread is whoever called thread_become_idle last; no other step changes it |
| TimeSlices.QuietTick | arch/arm/exceptions.S:93-100 | A tick at which no timer is due takes one tick from the running thread, which runs on if it has one left or has no equal ready, and otherwise gives way to the first of its equals and queues last |
| TimeSlices.GivesWayAfterItsTime | kernel/thread.c:332-382 | Over every run of such ticks: with an equal ready a thread runs for exactly the ticks it has left and then gives way |
| TimeSlices.EqualsTakeTurns | kernel/thread.c:287-290 | Time sharing over every number of such ticks: equals run five ticks each, in the order of their ring, again and again |
| MutexTheorems.AtMostOneOwner | kernel/mutex.c:64-174 | At most one thread holds a mutex or has been handed it and not run yet |
| MutexTheorems.MutexAccounting | kernel/mutex.c:64-174 | count is the owner plus the queued waiters plus the timed-out waiters that have not run yet |
| MutexTheorems.MutualExclusion | kernel/mutex.c:64-174 | Both hold in every state of every legal run from boot |
| MutexTheorems.OwnersStep | kernel/mutex.c:75-96 | Ownership changes only by taking a free mutex or by a release, which hands it to the longest waiter |
| MutexTheorems.QueueStep | kernel/mutex.c:147-174 | The waiters of a mutex are served from the head by its release and join at the tail; timeouts aside nothing else changes the line |
| MutexTheorems.FirstComeFirstServed | kernel/mutex.c:64-174 | Over every run that acquires a mutex without timeouts, the grants followed by the waiters still queued are the initial waiters followed by the arrivals, in order, and no waiter is left on a mutex nobody owns |
| MutexTheorems.UntimedCount | kernel/mutex.c:64-98 | With infinite timeouts only, count is positive exactly when the mutex is owned |
| MutexTheorems.FreshMutex | kernel/mutex.c:32-42 | An initialised mutex has no owner and no waiter, so the results over runs apply to it |
| MutexTheorems.StrandedExactlyWhen | kernel/mutex.c:100-145 | A step leaves a waiter on a mutex nobody owns if and only if it is an acquire, not with timeout zero, that finds the mutex without owner but count still positive; a timed-out waiter that has not run is the cause |
| MutexTheorems.ServedThroughoutExactly | kernel/mutex.c:64-174 | Over every run, with any timeouts: no waiter is ever left on a mutex nobody owns if and only if no acquire of the run finds the mutex without owner but count still positive |
| MutexTheorems.StrandedForever | kernel/mutex.c:100-145 | A thread so stranded without timeout is still queued, and the mutex still without owner, after every continuation |
| StrandedRun.FreeMutexStrandsItsWaiter | kernel/mutex.c:120-132 | A concrete legal run of fifteen steps from boot, through the start of the deferred-call thread and the idle thread, that strands a waiter |
| WaitTheorems.CallStep | kernel/thread.c:523-557 | One step leaves a call in progress parked where it was, or wakes it with the value of that step |
| WaitTheorems.WokenExactlyOnce | kernel/thread.c:507-685 | Until a call of wait_queue_block returns at most one step wakes it; before it the thread is on its queue, after it its return value is the value of that step and later timeouts change nothing |
| WaitTheorems.ParkedWhere | kernel/thread.c:535-541 | While parked a thread is on exactly the queue its call named, once woken on none |
| WaitTheorems.TimedOutAcquireBacksOut | kernel/mutex.c:113-143 | An acquire whose wait timed out gives its share of count back and takes nothing; every other return makes the caller the holder |
| TimeTheorems.PendingStep | kernel/timer.c:57-134 | The queued timers after any step are exactly those of before that are not due at its tick and whose wait does not return, and the one the step arms, due at now plus the delay |
| TimeTheorems.TickLook | kernel/timer.c:98-134 | A tick wakes exactly the sleepers and the timed waiters still queued whose time has come, the waiters with ERR_TIMED_OUT, and changes nothing for any other thread |
| TimeTheorems.Armed | kernel/thread.c:401-418 | A sleep, or a wait with timeout that blocks, arms a timer for now plus the delay and leaves its thread asleep, or queued |
| TimeTheorems.SleepEndsExactly | kernel/thread.c:385-418 | Over every run: a sleep lasts through all ticks before its time, whatever else happens, and the first tick at or after its time ends it |
| TimeTheorems.TimesOutExactly | kernel/thread.c:507-557 | Over every run until it returns: a timed wait is still queued only if every tick came before its deadline, and has timed out if and only if a tick at or after its deadline found it queued |
| EventTheorems.SignalledHasNoWaiter | kernel/event.c:59-123 | In every reachable state a signalled event has no waiter |
| EventTheorems.NewEvent | kernel/event.c:31-41 | A new event is signalled and auto-unsignalling as asked for, and nobody waits on it |
| EventTheorems.ManualStep | kernel/event.c:59-138 | An event without AUTOUNSIGNAL is changed by event_signal and event_unsignal only, the private event of kernel/dpc.c by posting a call and by finding none; a wait consumes neither |
| EventTheorems.ManualIsLastSet | include/kernel/event.h:39-53 | Over every run: an event without AUTOUNSIGNAL is signalled if and only if the last event_signal or event_unsignal was a signal, and while it is nobody waits on it and every wait falls through |
| EventTheorems.ObjectsAfter | kernel/event.c:31-57 | Mutexes and events exist from their initialisation on, events until they are destroyed, and no other step adds or removes one |
| EventTheorems.AutoStep | kernel/event.c:93-123 | Each event_signal of an AUTOUNSIGNAL event is latched, handed to exactly one waiter, or adds nothing because the event is already signalled |
| EventTheorems.AutoConservation | include/kernel/event.h:39-53 | Over every run: successful waits plus the latched signal plus the dropped ones equal the initial signal plus the calls of event_signal, so successes never exceed signals |
| EventTheorems.DpcStep | kernel/dpc.c:52-89 | One step moves deferred calls from those posted to those in hand and invoked, in order, losing none |
| EventTheorems.DpcInOrder | kernel/dpc.c:52-89 | Over every run the callbacks posted are the callbacks invoked, then the one in hand, then the list, in order, each once |
| EventTheorems.DpcLoops | kernel/dpc.c:68-89 | Over every run the deferred-call thread looks at the list once after each wait, calls each callback it found once, and waits again after it returned |
| EventTheorems.NoLostWakeup | kernel/dpc.c:52-89 | In every reachable state a nonempty list of deferred calls means that the event is signalled and nobody waits for it |
| RoundRobin.YieldRotates | kernel/thread.c:310-330 | A yield among equals at the top priority turns their ring by one |
| RoundRobin.RoundRobinWindow | kernel/thread.c:247-260 | If n threads share the top priority and only yield, n yields run each of them exactly once, in order, and restore the queue |
| KernelCode.ClzIsScan | kernel/thread.c:247-271 | The choice by count-leading-zeros on the bitmap is the choice of the scan from the highest priority down |
| KernelCode.KernelCode.constructor | kernel/thread.c:420-441 | The boot state of the code is the boot state of the state machine |
| KernelCode.KernelCode.InsertInRunQueueHead | kernel/thread.c:65-76 | The thread goes to the head of the queue of its priority, and bitmap bit p stays set exactly when run queue p is nonempty |
| KernelCode.KernelCode.InsertInRunQueueTail | kernel/thread.c:78-89 | The same at the tail |
| KernelCode.KernelCode.ThreadResched | kernel/thread.c:221-308 | The bitmap-driven code picks the thread, clears the bit and sets state and quantum as the state machine does |
| KernelCode.KernelCode.ThreadCreate | kernel/thread.c:98-140 | A new thread is suspended, on no queue |
| KernelCode.KernelCode.ThreadResume | kernel/thread.c:142-159 | Refines the step Resume; reports ERR_NOT_SUSPENDED exactly for ready and running threads |
| KernelCode.KernelCode.ThreadYield | kernel/thread.c:310-330 | Refines the step Yield |
| KernelCode.KernelCode.ThreadPreempt | kernel/thread.c:332-355 | Refines the step Preempt |
| KernelCode.KernelCode.ThreadSleep | kernel/thread.c:401-418 | Refines the step Sleep |
| KernelCode.KernelCode.ThreadSetPriority | kernel/thread.c:452-459 | Refines the step SetPriority, clamped to 0..31 |
| KernelCode.KernelCode.ThreadBecomeIdle | kernel/thread.c:461-467 | Refines the step BecomeIdle |
| KernelCode.KernelCode.ThreadExit | kernel/thread.c:185-208 | Refines the step Exit: dead, cleanup queued, another thread running |
| KernelCode.KernelCode.WaitQueueInit | kernel/thread.c:500-505 | An empty wait queue |
| KernelCode.KernelCode.WaitQueueBlock | kernel/thread.c:523-550 | Blocks as the state machine does, with the timer armed for a finite timeout; returns at once, changing nothing, exactly for timeout zero |
| KernelCode.KernelCode.WaitQueueWakeOne | kernel/thread.c:559-596 | Refines the waking of the longest waiter, returns how many were woken, keeps the count equal to the length of the list |
| KernelCode.KernelCode.DrainWaitQueue | kernel/thread.c:611-631 | The loop wakes everyone in order and counts them |
| KernelCode.KernelCode.WaitQueueWakeAll | kernel/thread.c:598-641 | Refines the waking of all waiters, returns how many; reading the count before the loop is sound because it equals the length of the list |
| KernelCode.KernelCode.ThreadUnblockFromWaitQueue | kernel/thread.c:653-685 | Refines the unblocking by a timeout; reports ERR_NOT_BLOCKED exactly for threads that are not blocked |
| KernelCode.KernelCode.MutexInit | kernel/mutex.c:32-42 | Refines the step MutexInit |
| KernelCode.KernelCode.MutexAcquire | kernel/mutex.c:64-145 | Refines the step Acquire up to the switch; times out at once exactly when the mutex is taken and the timeout is zero |
| KernelCode.KernelCode.FinishWait | kernel/mutex.c:113-143 | Refines the step Return: cancels the timer and takes the mutex or backs out of it; returns the recorded wake-up value |
| KernelCode.KernelCode.MutexRelease | kernel/mutex.c:147-174 | Refines the step Release |
| KernelCode.KernelCode.EventInit | kernel/event.c:31-41 | Refines the step EventInit |
| KernelCode.KernelCode.EventWaitTimeout | kernel/event.c:59-86 | Refines the step EventWait up to the switch |
| KernelCode.KernelCode.EventSignal | kernel/event.c:93-123 | Refines the signalling of an event: an auto-unsignalling event wakes one waiter or latches, any other latches and wakes all |
| KernelCode.KernelCode.EventUnsignal | kernel/event.c:125-138 | Refines the step Unsignal |
| KernelCode.KernelCode.EventDestroyed | kernel/event.c:43-57 | Wakes every waiter with ERR_OBJECT_DESTROYED |
| KernelCode.KernelCode.DpcQueue | kernel/dpc.c:52-66 | Appends the call and signals |
| KernelCode.KernelCode.DpcTake | kernel/dpc.c:68-89 | Takes the oldest call, or unsignals when there is none |
| KernelCode.KernelCode.FireTimer | kernel/thread.c:385-399 | The two timer callbacks of the scheduler refine waking a sleeper and timing out a waiter |
| KernelCode.KernelCode.FireTimers | kernel/timer.c:108-127 | The firing loop refines firing all due timers |
| KernelCode.KernelCode.ThreadTimerTick | kernel/thread.c:372-382 | Every thread but the idle thread is charged one tick |
| KernelCode.KernelCode.TimerTick | arch/arm/exceptions.S:93-100 | The whole timer interrupt refines the step Tick |
| KernelRun.Perform | kernel/thread.c:142-685 | In every state that keeps the invariant the code of any enabled step may run, moves the abstract state by exactly that step and keeps the invariant |
| KernelRun.RunFromBoot | kernel/main.c:66-118 | From boot the code carries out every legal run and ends where the state machine does |
| TimerQueue.InsertPosition | kernel/timer.c:42-55 | A new timer lands behind every timer due no later and ahead of every later one; nothing else moves and the queue stays sorted |
| TimerQueue.RemoveFacts | kernel/timer.c:86-96 | Cancelling removes exactly that timer and keeps the order of the others |
| TimerQueue.InsertTimerInQueue | kernel/timer.c:42-55 | The insertion loop computes the sorted insertion |
| TimerQueue.DeleteTimer | kernel/timer.c:92-93 | Unlinking computes the removal |
| TimerTick.CallbackOk | include/kernel/timer.h:47-52 | Any callback that cancels timers and arms others for later keeps the queue sorted and takes exactly the cancelled timers out of the due ones |
| TimerTick.TurnShortens | kernel/timer.c:108-127 | Each turn of the firing loop lowers the number of due timers, so the loop ends |
| TimerTick.TickFiresDue | kernel/timer.c:98-134 | A tick fires exactly the due timers that no earlier callback of the tick cancelled, in queue order, or the first few of them if a callback panics, and leaves only later timers, sorted |
| TickTheorems.ActLeaves | kernel/timer.c:57-96 | Arming is refused exactly for a queued timer and otherwise queues it with its due time; cancelling takes it out; all other timers stand |
| TickTheorems.CallbackLeaves | kernel/timer.c:57-96 | Any sequence of such actions panics if and only if it arms a queued timer, and otherwise leaves exactly the timers nobody acted on and those whose last action armed them, with that due time |
| TickTheorems.TickExactly | kernel/timer.c:98-134 | The whole tick, for all callbacks: it panics if and only if the callbacks of the timers that fire arm a queued one, in the callback of the last fired; otherwise exactly what was queued stays queued except what fired or was cancelled, and exactly what was armed and not cancelled afterwards is queued for its time |
| TickTheorems.UntouchedStay | kernel/timer.c:98-134 | The timers that did not fire and on which no callback acted are left in their order |
| TickTheorems.CancellingTick | kernel/timer.c:98-134 | If callbacks only cancel, the tick leaves exactly the queue without what fired and what was cancelled |
| TimerTick.CancelledNeverFires | kernel/timer.c:86-96 | A timer cancelled by the callback of another does not fire after it in the same tick |
| TimerTick.TimerList.TimerSetOneshot | kernel/timer.c:57-84 | Arms the timer, or panics exactly when it is already queued |
| TimerTick.TimerList.TimerCancel | kernel/timer.c:86-96 | Unlinks the timer if it is queued |
| TimerTick.TimerList.FireDueTimers | kernel/timer.c:108-127 | The firing loop with callbacks at work computes the tick |
| List.ListInitialize | include/list.h:38-41 | An empty ring |
| List.ListClearNode | include/list.h:43-46 | The item is in no list |
| List.ListAddHead | include/list.h:56-62 | The item is linked behind the given node: in front of all items for the head, behind the entry for list_add_after |
| List.ListAddTail | include/list.h:66-72 | The item is linked before the given node: behind all items for the head, before the entry for list_add_before |
| List.ListDelete | include/list.h:76-81 | Exactly that item leaves the ring, the others keep their order, and the item is in no list |
| List.ListRemoveHead | include/list.h:83-92 | Removes and returns the first item, or NULL from an empty ring |
| List.ListRemoveTail | include/list.h:104-113 | Removes and returns the last item, or NULL from an empty ring |
| List.ListPeekHead | include/list.h:125-132 | The first item, or NULL |
| List.ListPeekTail | include/list.h:144-151 | The last item, or NULL |
| List.ListPrev | include/list.h:163-170 | The item before, or NULL for the first |
| List.ListNext | include/list.h:203-210 | The item behind, or NULL for the last |
| List.ListPrevWrap | include/list.h:182-191 | The item before, the last for the first; never NULL |
| List.ListNextWrap | include/list.h:222-231 | The item behind, the first for the last; never NULL |
| List.ListIsEmpty | include/list.h:268-271 | True exactly for the empty ring |
| List.ListForEvery | include/list.h:244-245 | The loop visits the items once each, in order |
| List.MembersAreInList | include/list.h:48-54 | list_in_list is true of every member of a ring |
| HeapTiles.RoundUpLeast | lib/heap/heap.c:33 | ROUNDUP to a power of two is the least multiple not below its argument |
| HeapTiles.BadAlignmentExactly | lib/heap/heap.c:223-225 | The mask test on unsigned words rejects exactly what is neither zero nor a power of two |
| HeapTiles.PaddedExactly | lib/heap/heap.c:227-246 | Masks and tests compute the least multiple of 4 not below header and request, plus the larger of the alignment and 16 where an alignment is asked for and nothing where not |
| HeapTiles.SizeWordExactly | lib/heap/heap.c:227-246 | The size computed in 32 bits is the size needed when padding does not wrap, and covers even header and request if and only if it does not |
| HeapTiles.PaddingCanWrap | lib/heap/heap.c:227-246 | Half the address range, aligned to as much, is searched for as 12 bytes |
| HeapTiles.PaddedFits | lib/heap/heap.c:227-246 | Header, alignment loss and requested bytes fit in the padded size, and the pointer is a multiple of max(alignment, 16) when an alignment is asked for |
| HeapLaws.AllocOk | lib/heap/heap.c:217-315 | heap_alloc keeps the tiling of the heap; success adds exactly one live block, cut from the lowest chunk of sufficient length, as long as needed or up to 12 bytes longer where the rest cannot be split off, with header and requested bytes inside it, at the first aligned address behind the header; failure changes nothing |
| HeapLaws.NullExactly | lib/heap/heap.c:253-306 | NULL comes back exactly when the alignment is not a power of two or nowhere in the heap is there a stretch of unused bytes as long as the least multiple of 4 not below header and request, plus the larger of alignment and 16 if an alignment is asked for |
| HeapLaws.ReleaseOk | lib/heap/heap.c:317-338 | heap_free keeps the tiling, leaves no two free chunks abutting, and removes exactly the freed block from the live ones |
| HeapLaws.LiveDetermines | lib/heap/heap.c:175-204 | Coalescing is maximal: two heaps over the same range with the same live blocks have the same free chunks |
| HeapLaws.AllocThenFree | lib/heap/heap.c:257-303 | heap_alloc followed at once by heap_free of its result restores the identical heap, whether or not the chunk was split |
| HeapLaws.RunOk | lib/heap/heap.c:340-363 | In every reachable state free chunks and live blocks exactly partition the heap, in address order, with no two free chunks abutting |
| HeapLaws.HistoryIndependent | lib/heap/heap.c:175-204 | Any two histories that leave the same live blocks leave the same free list |
| HeapLaws.AllFreed | lib/heap/heap.c:340-363 | After any history that leaves nothing live the heap is the single chunk it started as |
| HeapLaws.FreeAllInAnyOrder | lib/heap/heap.c:317-338 | Freeing all live blocks, in any order, leaves exactly the chunk [base, base + len) |
| HeapList.ChunkBefore | lib/heap/heap.c:176-181 | The chunk listed before a block ends where the block starts exactly when it is its neighbour |
| HeapList.ChunkAfter | lib/heap/heap.c:193-195 | The chunk listed after a block starts where the block ends exactly when it is its neighbour |
| HeapCode.Heap.constructor | lib/heap/heap.c:340-355 | heap_init makes the whole range one free chunk |
| HeapCode.Heap.LinkChunk | lib/heap/heap.c:160-173 | The chunk is linked in address order; off the end of the list the cursor is the list head |
| HeapCode.Heap.MergePrevious | lib/heap/heap.c:175-192 | Merges with the chunk before exactly when they touch |
| HeapCode.Heap.MergeNext | lib/heap/heap.c:193-202 | Merges with the chunk behind exactly when they touch, and never with the list head |
| HeapCode.Heap.HeapInsertFreeChunk | lib/heap/heap.c:146-205 | List and lengths in memory become those of the released tile merged with its neighbours; returns the merged chunk; payloads of live blocks are untouched |
| HeapCode.Heap.FindChunk | lib/heap/heap.c:253-258 | The walk along the list finds the lowest chunk of sufficient length |
| HeapCode.Heap.TakeChunk | lib/heap/heap.c:260-302 | Splits the chunk when the rest is longer than a chunk header, putting the rest in its place in the list, and writes the header; no other word is written |
| HeapCode.Heap.HeapAlloc | lib/heap/heap.c:217-315 | List, lengths and headers in memory and the returned pointer are those of the allocation on tiles; payloads and headers of other blocks stay intact |
| HeapCode.Heap.HeapFree | lib/heap/heap.c:317-338 | Reads the block from its header and releases it; nothing for NULL |
| HeapCode.Heap.Store | lib/heap/heap.c:297-302 | A client that writes only the bytes it asked for disturbs no header and no chunk |
| NandModel.RoundTrip | platform/msm_shared/nand_wince.c:913-1081 | What flash_read_ext delivers from offset 0 of a stored image is that image, for every pattern of bad blocks; it reports success exactly when the image does not end on the partition's last page |
| NandModel.EndsOnLastPage | platform/msm_shared/nand_wince.c:953-986 | An image ends on the last page exactly when it fills all usable pages and the last block is not bad |
| NandModel.SamePagesExactly | platform/msm_shared/nand_wince.c:1022-1031 | Reader and writer use the same pages for an image if and only if no block was lost, for every pattern of bad and lost blocks that a write can leave |
| NandModel.CertainExactly | platform/msm_shared/nand_wince.c:1022-1066 | Whatever a successful read may deliver of a stored image is that image if and only if the writer lost no block |
| NandModel.LostBlockIsRead | platform/msm_shared/nand_wince.c:1022-1031 | A device as a failed erase of an unreported block leaves it, for every image of one page: reading it back succeeds and may deliver any other page |
| NandCode.PageCountExactly | platform/msm_shared/nand_wince.c:918-920 | The page count computed in 32 bits covers the bytes if and only if rounding up does not wrap, and is zero when it does |
| NandCode.Rollback | platform/msm_shared/nand_wince.c:1041-1047 | Going back by the pages written in the block stays inside the image and lands on the bytes held by the earlier blocks |
| NandCode.Flash.FlashErase | platform/msm_shared/nand_wince.c:897-911 | Every block of the partition is erased, bad or has failed in this call; nothing outside changes |
| NandCode.Flash.WriteNext | platform/msm_shared/nand_wince.c:1022-1066 | One turn of the loop writes the next page, or gives the block up and rolls back; the page number strictly increases; only erased pages are programmed |
| NandCode.Flash.WriteImage | platform/msm_shared/nand_wince.c:1010-1067 | Source offset and remaining bytes always add up to the image; only pages of the partition are touched; the loop ends |
| NandCode.Flash.EraseRest | platform/msm_shared/nand_wince.c:1069-1077 | The blocks behind the image are erased, bad or have failed |
| NandCode.Flash.FlashWrite | platform/msm_shared/nand_wince.c:989-1081 | Returns 0 exactly when the partition is not the modem's and the image is a whole number of pages that fits the blocks that are neither bad nor given up; then the image is stored in order in those blocks and the rest is swept. Otherwise as many whole pages as fit are stored; the modem partition is not touched. A block is marked bad only after a page failed in it, and given up unmarked only after an erase or a mark failed on it, in this call; every block given up unmarked lies ahead of the last page of a stored image, and nothing is known of what it holds; nothing outside the partition changes |
| NandCode.Flash.FindStart | platform/msm_shared/nand_wince.c:937-951 | The start page is found behind as many usable blocks as the offset asks for |
| NandCode.Flash.FlashReadExt | platform/msm_shared/nand_wince.c:913-987 | Delivers pages k to k+n-1 of the concatenation of the non-bad blocks, without those that failed to read in this call, also when the block reached is itself bad, for n computed in 32 bits from the bytes asked for; says exactly when it succeeds |
| NandCode.Flash.WriteThenRead | platform/msm_shared/nand_wince.c:913-1081 | End to end, under any device failures: after a successful write the image is certain to come back if and only if no block was lost; the read that follows, if no page fails, delivers the image when none was, and reports failure exactly when the image fills the usable pages and the last block is usable |
| MemorySpec.UpMoves | lib/libc/string/memcpy.c:54-63 | Byte-by-byte upward copying moves the block, for every memory, exactly when the destination does not start inside the source |
| MemorySpec.DownMoves | lib/libc/string/memmove.c:76-85 | The same downwards with the roles exchanged |
| MemorySpec.MemmoveExactly | lib/libc/string/memmove.c:37-89 | memmove stores the original source bytes in the destination and nothing elsewhere, for every memory, overlap, length and alignment, exactly when the blocks do not overlap across 2^31 and not 2^31 or more bytes go to a different alignment |
| MemorySpec.MemcpyExactly | lib/libc/string/memcpy.c:37-66 | memcpy does exactly when the destination does not start inside the source, with the same limit |
| MemorySpec.WordCopy | lib/libc/string/memmove.c:58-62 | Copying a word is copying its four bytes in either order, when source and destination are a word apart |
| MemoryCode.CopyUp | lib/libc/string/memmove.c:46-64 | Lead-in bytes, aligned words and tail together are the byte-by-byte upward copy |
| MemoryCode.CopyDown | lib/libc/string/memmove.c:65-86 | Lead-in bytes, aligned words and tail together are the byte-by-byte downward copy |
| MemoryCode.MemmoveBytes | lib/libc/string/memmove.c:37-89 | The word-at-a-time code equals its byte-by-byte specification on every input |
| MemoryCode.MemcpyBytes | lib/libc/string/memcpy.c:37-66 | The word-at-a-time code equals its byte-by-byte specification on every input |
| MemoryCode.ReplicatedIs | lib/libc/string/memset.c:39-40 | The two shift-or steps put the byte in all four places of the word |
| MemoryCode.MemsetBytes | lib/libc/string/memset.c:31-59 | memset sets exactly the count bytes to the low byte of c, for every length and alignment; words are stored at word boundaries only |
| Numbers.AtolUndoesDecimal | lib/libc/atoi.c:63-87 | atol undoes %d for every 32-bit int |
| Numbers.AtoulUndoesPrinting | lib/libc/atoi.c:89-104 | atoul undoes %u and %#x for every 32-bit word |
| Numbers.AtolReadsHex | lib/libc/atoi.c:68-72 | atol reads %#x, with small or capital digits, as the 32-bit int with the same bits |
| Numbers.DecimalReadersStop | lib/libc/atoi.c:63-104 | atol and atoul read a decimal number of any length modulo 2^32 and stop at the first character that is not a digit |
| Numbers.NegativeReaderStops | lib/libc/atoi.c:75-87 | So does atol behind a minus sign |
| Numbers.HexReadersStop | lib/libc/atoi.c:68-72 | atol and atoul behind 0x, and hex2unsigned without it, read a hexadecimal number of any length modulo 2^32, in small or capital digits, and stop at the first character that is no such digit |
| Numbers.Canonical | lib/libc/printf.c:93-155 | Printed numbers have no zero in front, except zero itself |
| Numbers.LettersOf | lib/libc/printf.c:124-155 | Hexadecimal digits above nine are capital letters exactly when asked for |
| Numbers.AtolStopsAtPlus | lib/libc/atoi.c:75-80 | atol undoes %+d exactly for numbers that are not positive: it stops at a plus sign |
| Numbers.AtoulMissesCapitalPrefix | lib/libc/atoi.c:92 | atoul undoes %#X exactly for zero: it does not know the prefix 0X |
| Numbers.Hex2UnsignedUndoesPadded | app/aboot/fastboot.c:39-80 | hex2unsigned undoes %08x, and any other zero-padded width, for every 32-bit word |
| Numbers.TextFits | lib/libc/printf.c:93-155 | Every 64-bit value with sign and terminator fits the 32-byte buffer |
| NumberCode.LongLongToString | lib/libc/printf.c:93-122 | The buffer filled backwards holds the decimal text of the number with its sign |
| NumberCode.LongLongToHexString | lib/libc/printf.c:124-155 | The buffer filled backwards holds the hexadecimal text of the number |
| NumberCode.AtoulLoop | lib/libc/atoi.c:89-104 | The loop computes the number at the front of the string modulo 2^32 |
| NumberCode.AtolLoop | lib/libc/atoi.c:63-87 | The loop computes the signed number at the front of the string in a 32-bit word |
| NumberCode.Hex2UnsignedLoop | app/aboot/fastboot.c:39-80 | The shift-or loop computes the hexadecimal number at the front of the string modulo 2^32 |
| Printf.OutputJustified | lib/libc/printf.c:330-353 | The shared output code stores the text padded on the proper side, or as much of it as the limit allows |
| Printf.OutputConversion | lib/libc/printf.c:199-325 | Each conversion stores what it prints, or as much of it as the limit allows |
| Printf.Vsnprintf | lib/libc/printf.c:162-366 | Stores what the format prints, cut to len - 1 characters for len of 2 or more, then a terminator, and nothing else; returns the number of characters stored; at most len bytes are stored exactly when len is at least 2, or is 1 and there is nothing to print |
| Formats.FormatExactly | lib/libc/printf.c:162-366 | For any list of literals and conversions with any flags, width, length and argument: the format prints what each item shows, in order, each conversion that takes an argument reading its own; text, bytes, strings and numbers of every width are given by their digits, sign, prefix and padding |
| Formats.FormatShowsItems | lib/libc/printf.c:162-366 | The same in front of any other format, which gets the arguments left over |
| Formats.PointIgnored | lib/libc/printf.c:196-212 | There is no precision: a point in a conversion is ignored and the digits behind it go on the width |
| Formats.AnyWidth | lib/libc/printf.c:200-205 | Any run of digits in a conversion is read as the width, modulo 2^32 |
| Formats.CutOff | lib/libc/printf.c:185-197 | A conversion that breaks off at the end of the format prints nothing |
| Printf.PrintedNumbers | lib/libc/printf.c:162-366 | Printed with %08x, %#x or %d through the formatter, a number is read back by hex2unsigned, atoul or atol |

## Left out

- Critical-section nesting: steps are atomic; the return of `thread_unblock_from_wait_queue` that skips leaving the critical section (kernel/thread.c:663-664) has no counterpart.
- `mutex_destroy` (kernel/mutex.c:44-62) and any use of a mutex or event after it was destroyed; `event_destroy` is modelled as waking the waiters, and the event may not be used again.
- Register context, stacks and idle-thread code: `arch_context_switch` is the change of the current thread. The stack of a thread inside `wait_queue_block` is the entry of that call in `inWait`.
- KernelCode.KernelCode.WaitQueueBlock: ends where the code switches to another thread; the rest of the call is `FinishWait`, because a method cannot stop in the middle.
- KernelCode.KernelCode.TimerTick: the tick always asks for a reschedule, as `timer_tick` does (kernel/timer.c:133); the results of single callbacks do not matter and are not modelled.
- SchedulerInv.UnblockOk: only the call without reschedule, the only one the source makes (kernel/thread.c:518); with reschedule the source would switch without putting the caller on a run queue.
- KernelCode.KernelCode.ThreadUnblockFromWaitQueue: the same, for the code.
- Thread and queue links inside the thread structures: threads are records in a map and queues are sequences; the links themselves are modelled once, in `List`.
- Thread names, entry points, statistics, thread-local storage, dumps, and debug assertions other than those that state a caller's duty.
- The allocation and freeing of a deferred-call request: `dpc_queue` uses what malloc returns without checking it (kernel/dpc.c:56-59).
- Wrap-around of the tick counter and of the time left of a thread that runs alone, which is never refilled; and periodic timers, which kernel/timer.c does not have.
- What `heap_alloc` does with a request whose padded size wraps: `HeapTiles.SizeWordExactly` says when that is, and the laws of the heap require that it is not so.
- The list links inside free chunks: the free list is a sequence of chunk addresses; the length of each chunk and all block headers are words in memory.
- Heap locking, dump and self-test.
- Extra bytes per page in `flash_write` and `flash_read_ext`: the driver moves only 16 spare bytes per page. All other routines of platform/msm_shared/nand_wince.c and the similar loops of nand.c.
- NandCode.Flash.WriteThenRead: says of a read in which pages fail only what it delivers of the others (`NandCode.Flash.FlashReadExt`), because the driver then goes on to the next page and shifts the image.
- A status error of the bad-block query, which the driver takes as a bad block (platform/msm_shared/nand_wince.c:298-302): the query never fails here, so it cannot give two answers for one block.
- Device registers, command lists and error-correcting codes: the device is the five operations at the top of `NandCode.Flash`, with failures at any time.
- Printf.Vsnprintf: the store of `%n` is not modelled, only that it takes an argument and prints nothing; reading more arguments than were passed, undefined in C, reads zero; the count of characters is not wrapped to 32 bits.
- Code other than the above: drivers, fastboot, shell, console and applications.
