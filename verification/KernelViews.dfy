/**
 What one step can do to a thread inside wait_queue_block: nothing, or wake it with the
 value that belongs to the step. The theorems about mutexes, events and wake-ups over whole
 runs rest on this.
 */
module KernelViews {
  import opened Basics
  import opened Scheduler
  import opened SchedulerInv
  import opened SchedulerEffects
  import opened TimerQueue
  import opened KernelModel
  import opened KernelInv
  import opened KernelSteps

  /** What wait_queue_block returns to a thread woken by this step. */
  function WakeValue(st: Step): int {
    match st
    case Tick(_) => ERR_TIMED_OUT
    case EventDestroy(_) => ERR_OBJECT_DESTROYED
    case _ => NO_ERROR
  }

  /** Only these steps wake a thread queued by the call c. */
  predicate MayWake(st: Step, c: Wait) {
    match st
    case Release(u) => c.w == OfMutex(u)
    case Signal(e, _) => c.w == OfEvent(e)
    case EventDestroy(e) => c.w == OfEvent(e)
    case QueueDpc(_, _) => c.w == OfEvent(DPC_EVENT)
    case Exit => c.w == OfEvent(DPC_EVENT)
    case Tick(_) => c.timed
    case _ => false
  }

  /** From m to m', every call in inWait is where it was, or was woken by a step that may. */
  ghost predicate Waked(m: Threads, m': Threads, inWait: InWait, st: Step) {
    forall t {:trigger Look(m', t)} :: t in inWait ==>
      || Look(m', t) == Look(m, t)
      || (Look(m, t).kind == Parked && MayWake(st, inWait[t]) && Look(m', t) == View(Active, None, WakeValue(st)))
  }

  lemma SameWaked(m: Threads, m': Threads, inWait: InWait, st: Step, x: set<Tid>)
    requires Same(m, m', x) && forall t :: t in x ==> t !in inWait
    ensures Waked(m, m', inWait, st)
  {
  }

  lemma WokenWaked(m: Threads, m': Threads, inWait: InWait, st: Step, q: seq<Tid>)
    requires Woken(m, m', q, WakeValue(st))
    requires forall t :: t in q ==> t in inWait && Look(m, t).kind == Parked && MayWake(st, inWait[t])
    ensures Waked(m, m', inWait, st)
  {
  }

  /** The threads queued on w are parked by calls that named w. */
  lemma QueuedOn(k: Kernel, w: WaitQueueId)
    requires KInv(k)
    ensures forall t :: t in Waiting(k.s, w) ==> t in k.inWait && k.inWait[t].w == w && Look(k.s.threads, t).kind == Parked
  {
    hide Rest;
    forall t | t in Waiting(k.s, w)
      ensures t in k.inWait && k.inWait[t].w == w && Look(k.s.threads, t).kind == Parked
    {
      InvWaits(k.s);
      ParkedFacts(k, w, t);
    }
  }

  lemma SignalWaked(k: Kernel, e: nat, resched: bool, st: Step)
    requires KInv(k) && e in k.events && WakeValue(st) == NO_ERROR
    requires forall c: Wait :: c.w == OfEvent(e) ==> MayWake(st, c)
    ensures Waked(k.s.threads, SignalEvent(k, e, resched).s.threads, k.inWait, st)
  {
    hide Inv, Rest, WakeOne, WakeAll, Woken;
    var w := OfEvent(e);
    QueuedOn(k, w);
    if k.events[e].signalled {
    } else if k.events[e].auto {
      WakeOneWoken(k.s, w, resched, NO_ERROR);
      WokenWaked(k.s.threads, WakeOne(k.s, w, resched, NO_ERROR).threads, k.inWait, st,
                 if Waiting(k.s, w) == [] then [] else [Waiting(k.s, w)[0]]);
    } else {
      WakeAllWoken(k.s, w, resched, NO_ERROR);
      WokenWaked(k.s.threads, WakeAll(k.s, w, resched, NO_ERROR).threads, k.inWait, st, Waiting(k.s, w));
    }
  }

  lemma ReleaseWaked(k: Kernel, u: nat)
    requires KInv(k)
    ensures Waked(k.s.threads, ReleaseMutex(k, u).s.threads, k.inWait, Release(u))
  {
    hide Inv, Rest, WakeOne, Woken;
    var w := OfMutex(u);
    QueuedOn(k, w);
    WakeOneWoken(k.s, w, true, NO_ERROR);
    WokenWaked(k.s.threads, WakeOne(k.s, w, true, NO_ERROR).threads, k.inWait, Release(u),
               if Waiting(k.s, w) == [] then [] else [Waiting(k.s, w)[0]]);
  }

  lemma DestroyWaked(k: Kernel, e: nat)
    requires KInv(k)
    ensures Waked(k.s.threads, DestroyEvent(k, e).s.threads, k.inWait, EventDestroy(e))
  {
    hide Inv, Rest, WakeAll, Woken;
    var w := OfEvent(e);
    QueuedOn(k, w);
    WakeAllWoken(k.s, w, true, ERR_OBJECT_DESTROYED);
    WokenWaked(k.s.threads, WakeAll(k.s, w, true, ERR_OBJECT_DESTROYED).threads, k.inWait, EventDestroy(e), Waiting(k.s, w));
  }

  /** The three moves of thread_exit: die, wake the deferred-call thread, switch. */
  lemma ExitMoves(k: Kernel, s1: Sched, s2: Sched)
    requires KInv(k) && k.s.current != BOOT && k.s.current !in k.inWait
    requires s1 == SetState(k.s, k.s.current, Death)
    requires s2 == if EventOf(k, DPC_EVENT).signalled then s1 else Drain(s1, OfEvent(DPC_EVENT), NO_ERROR)
    ensures ExitThread(k).s == Resched(s2)
    ensures Wf(s1, {}) && RunOk(s2.threads, s2.run, {})
    ensures Same(k.s.threads, s1.threads, {k.s.current}) && s1.waits == k.s.waits
  {
    PutLook(k.s.threads, k.s.current, Get(s1.threads, k.s.current));
    ExitStart(k);
    DrainSwitchable(s1, OfEvent(DPC_EVENT));
    DpcEventFacts(k);
  }

  lemma ExitWaked(k: Kernel)
    requires KInv(k) && k.s.current != BOOT && k.s.current !in k.inWait
    ensures Waked(k.s.threads, ExitThread(k).s.threads, k.inWait, Exit)
    ensures forall v :: Queue(ExitThread(k).s.waits, v) == if v == OfEvent(DPC_EVENT) && !EventOf(k, DPC_EVENT).signalled
                                                           then [] else Queue(k.s.waits, v)
  {
    hide Inv, Rest, RunOk, WaitsOk, ThreadsOk, Resched, ExitThread;
    var t, w := k.s.current, OfEvent(DPC_EVENT);
    var s1 := SetState(k.s, t, Death);
    var s2 := if EventOf(k, DPC_EVENT).signalled then s1 else Drain(s1, w, NO_ERROR);
    ExitMoves(k, s1, s2);
    ReschedLook(s2);
    QueuedOn(k, w);
    DrainLook(s1, w, NO_ERROR);
    SameWaked(k.s.threads, s1.threads, k.inWait, Exit, {t});
    if EventOf(k, DPC_EVENT).signalled {
      SameWaked(k.s.threads, Resched(s2).threads, k.inWait, Exit, {t});
    } else {
      ExitDrained(k.s.threads, s1.threads, s2.threads, Resched(s2).threads, k.inWait, Waiting(k.s, w), t);
    }
  }

  lemma ExitDrained(m: Threads, m1: Threads, m2: Threads, m3: Threads, inWait: InWait, q: seq<Tid>, t: Tid)
    requires Same(m, m1, {t}) && Woken(m1, m2, q, NO_ERROR) && Same(m2, m3, {}) && t !in inWait
    requires forall x :: x in q ==> x in inWait && inWait[x].w == OfEvent(DPC_EVENT) && Look(m, x).kind == Parked
    ensures Waked(m, m3, inWait, Exit)
  {
  }

  // ---------- the firing loop ----------

  lemma SleeperWaked(k: Kernel, now: int, t: Tid)
    requires KInv(k) && k.timers != [] && k.timers[0].who == SleepWake(t)
    ensures Waked(k.s.threads, Scheduler.SleepWake(k.s, t).threads, k.inWait, Tick(now))
  {
    hide Inv;
    assert Has(k.timers, SleepWake(t));
    assert Look(k.s.threads, t).kind == Asleep;
    assert t !in k.inWait;
    hide Rest;
    PutLook(k.s.threads, t, At(k.s, t).(state := Ready));
    SameWaked(k.s.threads, Scheduler.SleepWake(k.s, t).threads, k.inWait, Tick(now), {t});
  }

  lemma TimeoutWaked(k: Kernel, now: int, t: Tid)
    requires KInv(k) && k.timers != [] && k.timers[0].who == WaitTimeout(t)
    ensures Waked(k.s.threads, Unblock(k.s, t, ERR_TIMED_OUT).threads, k.inWait, Tick(now))
    ensures t in k.inWait && k.inWait[t].timed
    ensures forall w :: t !in Waiting(k.s, w) ==> Waiting(Unblock(k.s, t, ERR_TIMED_OUT), w) == Waiting(k.s, w)
  {
    hide Inv, Rest, Unblock;
    TimeoutCall(k, t);
    UnblockQueues(k.s, t);
    TimeoutWoken(k.s, t);
    if Look(k.s.threads, t).kind == Parked {
      WokenWaked(k.s.threads, Unblock(k.s, t, ERR_TIMED_OUT).threads, k.inWait, Tick(now), [t]);
    } else {
      SameWaked(k.s.threads, k.s.threads, k.inWait, Tick(now), {});
    }
  }

  lemma FireWaked(k: Kernel, now: int)
    requires KInv(k) && k.timers != []
    ensures KInv(k.(timers := k.timers[1..], s := Fire(k.s, k.timers[0].who)))
    ensures Waked(k.s.threads, Fire(k.s, k.timers[0].who).threads, k.inWait, Tick(now))
    ensures forall w :: (forall t :: t in Waiting(k.s, w) && t in k.inWait ==> !k.inWait[t].timed)
                        ==> Waiting(Fire(k.s, k.timers[0].who), w) == Waiting(k.s, w)
  {
    hide KInv, Unblock, Scheduler.SleepWake, Waked;
    match k.timers[0].who {
      case SleepWake(t) =>
        FireWakeSleeper(k, t);
        SleeperWaked(k, now, t);
        SleeperQueues(k.s, t);
      case WaitTimeout(t) =>
        FireTimeout(k, t);
        TimeoutWaked(k, now, t);
    }
  }

  lemma SleeperQueues(s: Sched, t: Tid)
    ensures Scheduler.SleepWake(s, t).waits == s.waits
  {
  }

  lemma TimeoutCall(k: Kernel, t: Tid)
    requires KInv(k) && k.timers != [] && k.timers[0].who == WaitTimeout(t)
    ensures t in k.inWait && k.inWait[t].timed
  {
    hide Inv;
    assert Has(k.timers, WaitTimeout(t));
  }

  lemma UnblockQueues(s: Sched, t: Tid)
    requires Inv(s)
    ensures forall w :: t !in Waiting(s, w) ==> Waiting(Unblock(s, t, ERR_TIMED_OUT), w) == Waiting(s, w)
  {
    hide RunOk, ThreadsOk;
    UnblockLook(s, t, ERR_TIMED_OUT);
    if Look(s.threads, t).kind == Parked {
      assert t in Waiting(s, Look(s.threads, t).on.value);
    }
  }

  lemma WakedTwice(m0: Threads, m1: Threads, m2: Threads, inWait: InWait, st: Step)
    requires Waked(m0, m1, inWait, st) && Waked(m1, m2, inWait, st)
    ensures Waked(m0, m2, inWait, st)
  {
    forall t | t in inWait
      ensures || Look(m2, t) == Look(m0, t)
              || (Look(m0, t).kind == Parked && MayWake(st, inWait[t]) && Look(m2, t) == View(Active, None, WakeValue(st)))
    {
      assert Look(m1, t) == Look(m0, t) || Look(m1, t).kind == Active;
    }
  }

  lemma {:induction false} FireDueWaked(k: Kernel, now: int)
    requires KInv(k)
    ensures Waked(k.s.threads, FireDue(k, now).s.threads, k.inWait, Tick(now))
    ensures forall w :: (forall t :: t in Waiting(k.s, w) && t in k.inWait ==> !k.inWait[t].timed)
                        ==> Waiting(FireDue(k, now).s, w) == Waiting(k.s, w)
    decreases |k.timers|
  {
    hide Inv, Rest, Fire;
    if k.timers != [] && k.timers[0].due <= now {
      var k1 := k.(timers := k.timers[1..], s := Fire(k.s, k.timers[0].who));
      FireWaked(k, now);
      FireDueWaked(k1, now);
      WakedTwice(k.s.threads, k1.s.threads, FireDue(k, now).s.threads, k.inWait, Tick(now));
    } else {
      SameWaked(k.s.threads, k.s.threads, k.inWait, Tick(now), {});
    }
  }

  lemma ChargePreemptLook(k: Kernel)
    requires KInv(k)
    ensures Quiet(k.s, Scheduler.Preempt(Charge(k.s)), {})
  {
    var r := At(k.s, k.s.current);
    ChargeOk(k.s);
    hide Wf, Rest, Scheduler.Preempt;
    RunningUpdateLook(k.s, r.(quantum := r.quantum - 1));
    PreemptLook(Charge(k.s));
  }

  lemma TickWaked(k: Kernel, now: int)
    requires KInv(k)
    ensures Waked(k.s.threads, TickTimers(k, now).s.threads, k.inWait, Tick(now))
    ensures forall w :: (forall t :: t in Waiting(k.s, w) && t in k.inWait ==> !k.inWait[t].timed)
                        ==> Waiting(TickTimers(k, now).s, w) == Waiting(k.s, w)
  {
    hide Inv, Rest, Scheduler.Preempt;
    FireDueOk(k, now);
    FireDueWaked(k, now);
    var k1 := FireDue(k, now);
    ChargePreemptLook(k1);
    SameWaked(k1.s.threads, TickTimers(k, now).s.threads, k.inWait, Tick(now), {});
    WakedTwice(k.s.threads, k1.s.threads, TickTimers(k, now).s.threads, k.inWait, Tick(now));
  }

  // ---------- all steps ----------

  /** Steps that wake nobody. */
  lemma QuietStepWaked(k: Kernel, st: Step)
    requires KInv(k) && Enabled(k, st)
    requires st.Create? || st.Resume? || st.Yield? || st.Sleep? || st.SetPriority? || st.BecomeIdle? || st.Preempt?
    ensures Waked(k.s.threads, Apply(k, st).s.threads, k.inWait, st)
  {
    hide Inv, Rest, Scheduler.Yield, Retire, ResumeThread, Scheduler.Preempt;
    var m, m' := k.s.threads, Apply(k, st).s.threads;
    match st
    case Create(t, p) =>
      PutLook(m, t, Thread(p, Suspended, 0, None, NO_ERROR));
      NotWaiting(k, t);
      SameWaked(m, m', k.inWait, st, {t});
    case Resume(t) =>
      ResumeLook(k.s, t);
      NotWaitingFresh(k, t);
      SameWaked(m, m', k.inWait, st, if At(k.s, t).state == Suspended then {t} else {});
    case Yield => YieldLook(k.s); SameWaked(m, m', k.inWait, st, {});
    case Sleep(now, delay) => RetireLook(k.s, Sleeping); SameWaked(m, m', k.inWait, st, {k.s.current});
    case SetPriority(p) => SetPriorityLook(k.s, p); SameWaked(m, m', k.inWait, st, {});
    case BecomeIdle => SetPriorityLook(k.s, IDLE_PRIORITY); SameWaked(m, m', k.inWait, st, {});
    case Preempt => PreemptLook(k.s); SameWaked(m, m', k.inWait, st, {});
  }

  /** Any step: each call still in progress is untouched or woken with the value of the step. */
  lemma StepWaked(k: Kernel, st: Step)
    requires KInv(k) && Enabled(k, st)
    ensures Waked(k.s.threads, Apply(k, st).s.threads, k.inWait, st)
  {
    hide Inv, Rest, Waked, Block, WakeOne, WakeAll, TickTimers, ExitThread;
    match st
    case Exit => ExitWaked(k);
    case Acquire(u, now, timeout) => BlockWaked(k, OfMutex(u), now, timeout, st);
    case Release(u) => ReleaseWaked(k, u);
    case EventWait(e, now, timeout) => BlockWaked(k, OfEvent(e), now, timeout, st);
    case Signal(e, resched) => SignalWaked(k, e, resched, st);
    case EventDestroy(e) => DestroyWaked(k, e);
    case QueueDpc(d, resched) => DpcEventFacts(k); PostWaked(k, d, resched);
    case DpcWait => DpcNotBoot(k); BlockWaked(k, OfEvent(DPC_EVENT), 0, None, st);
    case DpcCall => CallWaked(k);
    case Tick(now) => TickWaked(k, now);
    case MutexInit(_) => SameWaked(k.s.threads, k.s.threads, k.inWait, st, {});
    case EventInit(_, _, _) => SameWaked(k.s.threads, k.s.threads, k.inWait, st, {});
    case Unsignal(_) => SameWaked(k.s.threads, k.s.threads, k.inWait, st, {});
    case DpcTake => SameWaked(k.s.threads, k.s.threads, k.inWait, st, {});
    case DpcReturn => SameWaked(k.s.threads, k.s.threads, k.inWait, st, {});
    case Return => SameWaked(k.s.threads, k.s.threads, k.inWait, st, {});
    case _ => QuietStepWaked(k, st);
  }

  lemma NotWaiting(k: Kernel, t: Tid)
    requires KInv(k) && t !in k.s.threads
    ensures t !in k.inWait
  {
    hide Inv;
    assert Look(k.s.threads, t).kind == Gone;
  }

  lemma NotWaitingFresh(k: Kernel, t: Tid)
    requires KInv(k)
    ensures At(k.s, t).state == Suspended ==> t !in k.inWait
    ensures At(k.s, t).state in {Ready, Running} ==> ResumeThread(k.s, t) == k.s
  {
    hide Inv;
    assert At(k.s, t).state == Suspended ==> Look(k.s.threads, t).kind == Fresh;
  }

  lemma SetPriorityLook(s: Sched, p: int)
    requires Inv(s)
    ensures Quiet(s, Scheduler.SetPriority(s, p), {})
  {
    hide Wf;
    RunningUpdateLook(s, At(Scheduler.SetPriority(s, p), s.current));
  }

  lemma DpcNotBoot(k: Kernel)
    requires KInv(k)
    ensures k.s.current == DPC ==> k.s.current != BOOT
  {
  }

  lemma BlockWaked(k: Kernel, w: WaitQueueId, now: int, timeout: Option<nat>, st: Step)
    requires KInv(k) && Enabled(k, st)
    requires (st.Acquire? && w == OfMutex(st.m) && st.now == now && st.timeout == timeout)
          || (st.EventWait? && w == OfEvent(st.e) && st.now == now && st.timeout == timeout)
          || (st.DpcWait? && w == OfEvent(DPC_EVENT) && now == 0 && timeout == None)
    ensures Waked(k.s.threads, Apply(k, st).s.threads, k.inWait, st)
  {
    hide Inv, Rest, Block;
    var m, m' := k.s.threads, Apply(k, st).s.threads;
    if Apply(k, st).s == k.s {
      SameWaked(m, m', k.inWait, st, {});
    } else {
      assert Apply(k, st).s == Block(k.s, w);
      BlockLook(k.s, w);
      SameWaked(m, m', k.inWait, st, {k.s.current});
    }
  }

  lemma PostWaked(k: Kernel, d: Dpc, resched: bool)
    requires KInv(k) && DPC_EVENT in k.events && d.Call?
    ensures Waked(k.s.threads, PostDpc(k, d, resched).s.threads, k.inWait, QueueDpc(d, resched))
  {
    hide KInv, WakeOne, WakeAll, Waked;
    assert PostDpc(k, d, resched).s == SignalEvent(k, DPC_EVENT, resched).s;
    SignalWaked(k, DPC_EVENT, resched, QueueDpc(d, resched));
  }

  lemma CallWaked(k: Kernel)
    requires KInv(k) && k.dpcPc.Holding?
    ensures Waked(k.s.threads, CallDpc(k).s.threads, k.inWait, DpcCall)
  {
    hide Inv;
    var m := k.s.threads;
    match k.dpcPc.d
    case Cleanup(t) =>
      assert Cleanups(InHand(k.dpcPc) + k.dpcs)[0] == t;
      assert Look(m, t).kind == Gone && t !in k.inWait;
      hide Rest;
      assert forall u :: u != t ==> Get(m - {t}, u) == Get(m, u);
      SameWaked(m, m - {t}, k.inWait, DpcCall, {t});
    case Call(_) => SameWaked(m, m, k.inWait, DpcCall, {});
  }

  /** The wait queue this step puts its thread on, if it blocks. */
  function JoinedQueue(k: Kernel, st: Step): Option<WaitQueueId> {
    match st
    case Acquire(u, _, _) => if Blocks(k, st) then Some(OfMutex(u)) else None
    case EventWait(e, _, _) => if Blocks(k, st) then Some(OfEvent(e)) else None
    case DpcWait => if EventOf(k, DPC_EVENT).signalled then None else Some(OfEvent(DPC_EVENT))
    case _ => None
  }

  predicate WithTimeout(st: Step) {
    (st.Acquire? || st.EventWait?) && st.timeout.Some?
  }

  /** The calls in progress change only by the running thread entering or leaving one. */
  lemma StepCalls(k: Kernel, st: Step)
    requires KInv(k) && Enabled(k, st)
    ensures Apply(k, st).inWait ==
              if JoinedQueue(k, st).Some? then k.inWait[k.s.current := Wait(JoinedQueue(k, st).value, WithTimeout(st))]
              else if st.Return? then k.inWait - {k.s.current}
              else k.inWait
  {
    hide Inv, Rest;
    if st.Acquire? || st.EventWait? || st.DpcWait? {
      JoinCalls(k, st);
    } else {
      OtherCalls(k, st);
    }
  }

  lemma JoinCalls(k: Kernel, st: Step)
    requires KInv(k) && Enabled(k, st) && (st.Acquire? || st.EventWait? || st.DpcWait?)
    ensures Apply(k, st).inWait ==
              if JoinedQueue(k, st).Some? then k.inWait[k.s.current := Wait(JoinedQueue(k, st).value, WithTimeout(st))]
              else k.inWait
  {
    hide Inv, Rest, Block, Insert;
  }

  lemma OtherCalls(k: Kernel, st: Step)
    requires KInv(k) && Enabled(k, st) && !(st.Acquire? || st.EventWait? || st.DpcWait?)
    ensures Apply(k, st).inWait == if st.Return? then k.inWait - {k.s.current} else k.inWait
  {
    hide Inv, Rest, Resched, WakeOne, WakeAll, Scheduler.Yield, Scheduler.Preempt, Charge, Retire, ResumeThread, FireDue,
      Insert, Remove;
    if st.Tick? {
      FireDueOk(k, st.now);
    }
  }

  lemma JoinerQueue(k: Kernel, st: Step, w: WaitQueueId)
    requires KInv(k) && Enabled(k, st) && (st.Acquire? || st.EventWait? || st.DpcWait?)
    ensures Waiting(Apply(k, st).s, w) == Waiting(k.s, w) + if JoinedQueue(k, st) == Some(w) then [k.s.current] else []
  {
    hide Inv, Rest, Block, Insert;
    DpcNotBoot(k);
    DpcEventFacts(k);
    if JoinedQueue(k, st).Some? {
      BlockLook(k.s, JoinedQueue(k, st).value);
      assert Apply(k, st).s == Block(k.s, JoinedQueue(k, st).value);
    } else {
      assert Apply(k, st).s == k.s;
    }
  }

  lemma WakerQueue(k: Kernel, st: Step, w: WaitQueueId)
    requires KInv(k) && Enabled(k, st)
    requires st.Release? || st.Signal? || st.EventDestroy? || st.QueueDpc? || st.Tick? || st.Exit?
    requires forall t :: t in Waiting(k.s, w) && t in k.inWait ==> !MayWake(st, k.inWait[t])
    ensures Waiting(Apply(k, st).s, w) == Waiting(k.s, w)
  {
    hide Inv, Rest, WakeOne, WakeAll, TickTimers, ExitThread, Woken;
    Untouched(k, st, w);
    match st
    case Release(u) => WakeOneWoken(k.s, OfMutex(u), true, NO_ERROR);
    case Signal(e, resched) => hide SignalEvent; SignalQueues(k, e, resched, w);
    case EventDestroy(e) => WakeAllWoken(k.s, OfEvent(e), true, ERR_OBJECT_DESTROYED);
    case QueueDpc(d, resched) =>
      DpcEventFacts(k);
      assert Apply(k, st).s == SignalEvent(k, DPC_EVENT, resched).s;
      SignalQueues(k, DPC_EVENT, resched, w);
    case Tick(now) => TickWaked(k, now);
    case Exit => ExitWaked(k);
  }

  /** A queue none of whose waiters the step may wake only grows, by the thread that blocks on it. */
  lemma StepQueue(k: Kernel, st: Step, w: WaitQueueId)
    requires KInv(k) && Enabled(k, st)
    requires forall t :: t in Waiting(k.s, w) && t in k.inWait ==> !MayWake(st, k.inWait[t])
    ensures Waiting(Apply(k, st).s, w) == Waiting(k.s, w) + if JoinedQueue(k, st) == Some(w) then [k.s.current] else []
  {
    hide Inv, Rest, MayWake;
    if st.Acquire? || st.EventWait? || st.DpcWait? {
      JoinerQueue(k, st, w);
    } else if st.Release? || st.Signal? || st.EventDestroy? || st.QueueDpc? || st.Tick? || st.Exit? {
      WakerQueue(k, st, w);
    } else if st.MutexInit? || st.EventInit? {
      FreshQueue(k, st, w);
    } else {
      hide Enabled, Apply;
      QuietQueue(k, st);
    }
  }

  /** No queue exists yet for a new object, so initialising it changes nothing. */
  lemma FreshQueue(k: Kernel, st: Step, w: WaitQueueId)
    requires KInv(k) && Enabled(k, st) && (st.MutexInit? || st.EventInit?)
    ensures Waiting(Apply(k, st).s, w) == Waiting(k.s, w)
  {
    hide Inv, Rest;
    if st.MutexInit? {
      NoMutex(k, st.m);
    } else {
      NoEvent(k, st.e);
    }
  }

  lemma QuietQueue(k: Kernel, st: Step)
    requires KInv(k) && Enabled(k, st) && JoinedQueue(k, st) == None
    requires !(st.Acquire? || st.EventWait? || st.DpcWait? || st.MutexInit? || st.EventInit?)
    requires !(st.Release? || st.Signal? || st.EventDestroy? || st.QueueDpc? || st.Tick? || st.Exit?)
    ensures Apply(k, st).s.waits == k.s.waits
  {
    hide Inv, Rest, Scheduler.Yield, Scheduler.Preempt, Retire, ResumeThread;
    match st
    case Resume(t) => ResumeLook(k.s, t); NotWaitingFresh(k, t);
    case Yield => YieldLook(k.s);
    case Sleep(now, delay) => RetireLook(k.s, Sleeping);
    case Preempt => PreemptLook(k.s);
    case _ =>
  }

  /** A step that may wake everyone on w wakes nobody there only if w is empty. */
  lemma Untouched(k: Kernel, st: Step, w: WaitQueueId)
    requires KInv(k)
    requires forall t :: t in Waiting(k.s, w) && t in k.inWait ==> !MayWake(st, k.inWait[t])
    ensures !st.Tick? && MayWake(st, Wait(w, false)) ==> Waiting(k.s, w) == []
    ensures st.Tick? ==> forall t :: t in Waiting(k.s, w) && t in k.inWait ==> !k.inWait[t].timed
  {
    hide Inv, Rest;
    QueuedOn(k, w);
    if Waiting(k.s, w) != [] {
      assert Waiting(k.s, w)[0] in Waiting(k.s, w);
    }
  }

  lemma SignalQueues(k: Kernel, e: nat, resched: bool, w: WaitQueueId)
    requires KInv(k) && e in k.events
    ensures w != OfEvent(e) || Waiting(k.s, w) == [] ==>
              Waiting(SignalEvent(k, e, resched).s, w) == Waiting(k.s, w)
  {
    hide Inv, Rest, WakeOne, WakeAll, Woken;
    WakeOneWoken(k.s, OfEvent(e), resched, NO_ERROR);
    WakeAllWoken(k.s, OfEvent(e), resched, NO_ERROR);
  }
}
