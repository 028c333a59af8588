/**
 The whole kernel as a state machine: scheduler, mutexes (kernel/mutex.c), events
 (kernel/event.c), the deferred-call thread (kernel/dpc.c) and the timers of blocked and
 sleeping threads. One step is one critical section; a step ends where thread_resched
 switches, and the code behind wait_queue_block runs as a step of its own (Return) as soon
 as its thread is running again, before interrupts are enabled.
 */
module KernelModel {
  import opened Basics
  import opened Scheduler
  import opened TimerQueue

  /** Created by dpc_init; its event is private to kernel/dpc.c. */
  const DPC: Tid := 1
  const DPC_EVENT: nat := 0

  datatype Target = SleepWake(t: Tid) | WaitTimeout(t: Tid)

  /** A call of wait_queue_block that has not returned yet. */
  datatype Wait = Wait(w: WaitQueueId, timed: bool)

  datatype Mutex = Mutex(count: int, holder: Option<Tid>)
  datatype Event = Event(signalled: bool, auto: bool)

  /** A deferred call: thread_cleanup_dpc of a dead thread, or any other callback. */
  datatype Dpc = Cleanup(t: Tid) | Call(id: nat)

  /** Where dpc_thread_routine is in its loop. */
  datatype DpcPc = AtWait | AtTake | Holding(d: Dpc) | InCallback

  type InWait = map<Tid, Wait>
  type Mutexes = map<nat, Mutex>
  type Events = map<nat, Event>
  type Timers = seq<Entry<Target>>

  datatype Kernel = Kernel(s: Sched, inWait: InWait, mutexes: Mutexes, events: Events,
                           timers: Timers, dpcs: seq<Dpc>, dpcPc: DpcPc)

  datatype Step =
    | Create(t: Tid, p: Priority)
    | Resume(t: Tid)
    | Exit
    | Yield
    | Sleep(now: int, delay: nat)
    | SetPriority(prio: int)
    | BecomeIdle
    | MutexInit(m: nat)
    | Acquire(m: nat, now: int, timeout: Option<nat>)
    | Release(m: nat)
    | EventInit(e: nat, initial: bool, auto: bool)
    | EventWait(e: nat, now: int, timeout: Option<nat>)
    | Signal(e: nat, resched: bool)
    | Unsignal(e: nat)
    | EventDestroy(e: nat)
    | QueueDpc(d: Dpc, resched: bool)
    | DpcWait
    | DpcTake
    | DpcCall
    | DpcReturn
    | Return
    | Preempt
    | Tick(now: int)

  /** thread_init_early followed by the event_init of dpc_init. */
  function Init(): Kernel {
    Kernel(Sched(map[BOOT := Thread(31, Running, 0, None, NO_ERROR)], seq(32, _ => []),
                 map[OfEvent(DPC_EVENT) := []], BOOT, None),
           map[], map[], map[DPC_EVENT := Event(false, false)], [], [], AtWait)
  }

  function MutexOf(k: Kernel, m: nat): Mutex {
    if m in k.mutexes then k.mutexes[m] else Mutex(0, None)
  }

  function EventOf(k: Kernel, e: nat): Event {
    if e in k.events then k.events[e] else Event(false, false)
  }

  // ---------- wait_queue_block ----------

  /** wait_queue_init. */
  function InitQueue(k: Kernel, w: WaitQueueId): Kernel {
    k.(s := k.s.(waits := k.s.waits[w := []]))
  }

  /** wait_queue_block with a nonzero timeout, up to the switch to another thread. */
  function BlockOn(k: Kernel, w: WaitQueueId, now: int, timeout: Option<nat>): Kernel {
    k.(s := Block(k.s, w),
       inWait := k.inWait[k.s.current := Wait(w, timeout.Some?)],
       timers := if timeout.Some? then Insert(k.timers, Entry(now + timeout.value, WaitTimeout(k.s.current)))
                 else k.timers)
  }

  /** The rest of wait_queue_block and of its caller, for the thread now running. */
  function Finish(k: Kernel): Kernel {
    var t := k.s.current;
    if t !in k.inWait then k else
      var Wait(w, timed) := k.inWait[t];
      var k1 := k.(inWait := k.inWait - {t},
                   timers := if timed then Remove(k.timers, WaitTimeout(t)) else k.timers);
      match w
      case OfEvent(_) => k1
      case OfMutex(m) => FinishAcquire(k1, m, timed, At(k.s, t).blockRet)
  }

  function FinishAcquire(k: Kernel, m: nat, timed: bool, ret: int): Kernel {
    var mx := MutexOf(k, m);
    if timed && ret == ERR_TIMED_OUT then k.(mutexes := k.mutexes[m := mx.(count := mx.count - 1)])
    else if !timed && ret < 0 then k
    else k.(mutexes := k.mutexes[m := mx.(holder := Some(k.s.current))])
  }

  // ---------- mutexes ----------

  function AcquireMutex(k: Kernel, m: nat, now: int, timeout: Option<nat>): Kernel {
    var mx := MutexOf(k, m);
    if mx.count + 1 > 1 then
      if timeout == Some(0) then k
      else BlockOn(k.(mutexes := k.mutexes[m := mx.(count := mx.count + 1)]), OfMutex(m), now, timeout)
    else k.(mutexes := k.mutexes[m := Mutex(mx.count + 1, Some(k.s.current))])
  }

  function ReleaseMutex(k: Kernel, m: nat): Kernel {
    var mx := Mutex(MutexOf(k, m).count - 1, None);
    var k1 := k.(mutexes := k.mutexes[m := mx]);
    if mx.count >= 1 then k1.(s := WakeOne(k.s, OfMutex(m), true, NO_ERROR)) else k1
  }

  // ---------- events ----------

  function WaitEvent(k: Kernel, e: nat, now: int, timeout: Option<nat>): Kernel {
    var ev := EventOf(k, e);
    if ev.signalled then
      if ev.auto then k.(events := k.events[e := ev.(signalled := false)]) else k
    else if timeout == Some(0) then k
    else BlockOn(k, OfEvent(e), now, timeout)
  }

  function SignalEvent(k: Kernel, e: nat, resched: bool): Kernel {
    var ev := EventOf(k, e);
    if ev.signalled then k
    else if ev.auto && Waiting(k.s, OfEvent(e)) != [] then
      k.(s := WakeOne(k.s, OfEvent(e), resched, NO_ERROR))
    else
      k.(events := k.events[e := ev.(signalled := true)],
         s := if ev.auto then k.s else WakeAll(k.s, OfEvent(e), resched, NO_ERROR))
  }

  function DestroyEvent(k: Kernel, e: nat): Kernel {
    k.(events := k.events - {e}, s := WakeAll(k.s, OfEvent(e), true, ERR_OBJECT_DESTROYED))
  }

  // ---------- deferred calls ----------

  function PostDpc(k: Kernel, d: Dpc, resched: bool): Kernel {
    SignalEvent(k.(dpcs := k.dpcs + [d]), DPC_EVENT, resched)
  }

  /** The critical section of dpc_thread_routine. */
  function TakeDpc(k: Kernel): Kernel {
    if k.dpcs == [] then
      k.(events := k.events[DPC_EVENT := EventOf(k, DPC_EVENT).(signalled := false)], dpcPc := AtWait)
    else k.(dpcs := k.dpcs[1..], dpcPc := Holding(k.dpcs[0]))
  }

  function CallDpc(k: Kernel): Kernel {
    match k.dpcPc
    case Holding(Cleanup(t)) => k.(s := k.s.(threads := k.s.threads - {t}), dpcPc := InCallback)
    case _ => k.(dpcPc := InCallback)
  }

  function ExitThread(k: Kernel): Kernel {
    var k1 := PostDpc(k.(s := SetState(k.s, k.s.current, Death)), Cleanup(k.s.current), false);
    k1.(s := Resched(k1.s))
  }

  // ---------- time ----------

  /** The callback of one timer. */
  function Fire(s: Sched, x: Target): Sched {
    match x
    case SleepWake(t) => Scheduler.SleepWake(s, t)
    case WaitTimeout(t) => Unblock(s, t, ERR_TIMED_OUT)
  }

  /** The firing loop of timer_tick. */
  function FireDue(k: Kernel, now: int): Kernel
    decreases |k.timers|
  {
    if k.timers == [] || now < k.timers[0].due then k
    else FireDue(k.(timers := k.timers[1..], s := Fire(k.s, k.timers[0].who)), now)
  }

  /** timer_tick, thread_timer_tick, and thread_preempt, which the interrupt return always calls. */
  function TickTimers(k: Kernel, now: int): Kernel {
    var k1 := FireDue(k, now);
    k1.(s := Scheduler.Preempt(Charge(k1.s)))
  }

  // ---------- the machine ----------

  function Apply(k: Kernel, st: Step): Kernel {
    match st
    case Create(t, p) => k.(s := Scheduler.Create(k.s, t, p))
    case Resume(t) => k.(s := ResumeThread(k.s, t))
    case Exit => ExitThread(k)
    case Yield => k.(s := Scheduler.Yield(k.s))
    case Sleep(now, delay) => k.(s := Retire(k.s, Sleeping),
                                 timers := Insert(k.timers, Entry(now + delay, SleepWake(k.s.current))))
    case SetPriority(p) => k.(s := Scheduler.SetPriority(k.s, p))
    case BecomeIdle => k.(s := Scheduler.BecomeIdle(k.s))
    case MutexInit(m) => InitQueue(k.(mutexes := k.mutexes[m := Mutex(0, None)]), OfMutex(m))
    case Acquire(m, now, timeout) => AcquireMutex(k, m, now, timeout)
    case Release(m) => ReleaseMutex(k, m)
    case EventInit(e, initial, auto) => InitQueue(k.(events := k.events[e := Event(initial, auto)]), OfEvent(e))
    case EventWait(e, now, timeout) => WaitEvent(k, e, now, timeout)
    case Signal(e, resched) => SignalEvent(k, e, resched)
    case Unsignal(e) => k.(events := k.events[e := EventOf(k, e).(signalled := false)])
    case EventDestroy(e) => DestroyEvent(k, e)
    case QueueDpc(d, resched) => PostDpc(k, d, resched)
    case DpcWait => WaitEvent(k.(dpcPc := AtTake), DPC_EVENT, 0, None)
    case DpcTake => TakeDpc(k)
    case DpcCall => CallDpc(k)
    case DpcReturn => k.(dpcPc := AtWait)
    case Return => Finish(k)
    case Preempt => k.(s := Scheduler.Preempt(k.s))
    case Tick(now) => TickTimers(k, now)
  }

  /** Would this call put its thread to sleep in wait_queue_block? */
  predicate Blocks(k: Kernel, st: Step) {
    match st
    case Acquire(m, _, timeout) => MutexOf(k, m).count + 1 > 1 && timeout != Some(0)
    case EventWait(e, _, timeout) => !EventOf(k, e).signalled && timeout != Some(0)
    case Sleep(_, _) => true
    case Exit => true
    case _ => false
  }

  /** Interrupts come in whatever thread is running, provided it is not inside a critical section. */
  predicate IsInterrupt(st: Step) {
    st.Preempt? || st.Tick? || (st.Signal? && !st.resched)
  }

  predicate IsDpcStep(st: Step) {
    st.DpcWait? || st.DpcTake? || st.DpcCall? || st.DpcReturn?
  }

  /** What the callers owe: no use of missing or destroyed objects, no recursive acquire and no
      release by another thread (both panic), resume only of suspended (or runnable) threads, and
      a bootstrap thread that never blocks. The deferred-call thread follows its own loop, and the
      idle thread only waits for interrupts. */
  predicate Enabled(k: Kernel, st: Step) {
    && (st.Return? <==> k.s.current in k.inWait)
    && (Blocks(k, st) ==> k.s.current != BOOT)
    && (k.s.current == DPC && !IsInterrupt(st) && !st.Return? ==>
          match k.dpcPc
          case AtWait => st.DpcWait?
          case AtTake => st.DpcTake?
          case Holding(_) => st.DpcCall?
          case InCallback => st.DpcReturn? || !IsDpcStep(st))
    && (k.s.current != DPC ==> !IsDpcStep(st))
    && (k.s.idle == Some(k.s.current) ==> IsInterrupt(st))
    && (match st
        case Create(t, _) => t !in k.s.threads
        case Resume(t) => At(k.s, t).state in {Suspended, Ready, Running}
        case Exit => k.s.current != DPC
        case BecomeIdle => k.s.current == BOOT
        case MutexInit(m) => m !in k.mutexes
        case Acquire(m, _, _) => m in k.mutexes && k.mutexes[m].holder != Some(k.s.current)
        case Release(m) => m in k.mutexes && k.mutexes[m].holder == Some(k.s.current)
        case EventInit(e, _, _) => e !in k.events
        case EventWait(e, _, _) => e in k.events && e != DPC_EVENT
        case Signal(e, _) => e in k.events && e != DPC_EVENT
        case Unsignal(e) => e in k.events && e != DPC_EVENT
        case EventDestroy(e) => e in k.events && e != DPC_EVENT
        case QueueDpc(d, _) => d.Call?
        case _ => true)
  }

  // ---------- runs ----------

  function After(k: Kernel, run: seq<Step>): Kernel {
    if run == [] then k else Apply(After(k, run[..|run| - 1]), run[|run| - 1])
  }

  /** Every step of the run was allowed where it was taken. */
  predicate Legal(k: Kernel, run: seq<Step>) {
    run != [] ==> Legal(k, run[..|run| - 1]) && Enabled(After(k, run[..|run| - 1]), run[|run| - 1])
  }
}
