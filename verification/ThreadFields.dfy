/**
 What a step does to the parts of a thread that no view shows: its priority and the time it
 has left. And which thread structures exist.
 */
module ThreadFields {
  import opened Basics
  import opened Scheduler
  import opened SchedulerInv
  import opened SchedulerEffects
  import opened TimerQueue
  import opened KernelModel
  import opened KernelInv
  import opened KernelSteps
  import opened KernelViews
  import opened Urgency

  /** The same threads with the same priorities and the same time left. */
  ghost predicate Fields(m: Threads, m': Threads) {
    && m'.Keys == m.Keys
    && (forall t {:trigger Get(m', t)} :: Get(m', t).priority == Get(m, t).priority && Get(m', t).quantum == Get(m, t).quantum)
  }

  /** From s to s' a thread newly running got five ticks if it had none left; otherwise the same. */
  ghost predicate Refilled(s: Sched, s': Sched) {
    && s'.threads.Keys == s.threads.Keys
    && (forall t {:trigger At(s', t)} ::
          && At(s', t).priority == At(s, t).priority
          && At(s', t).quantum == if t == s'.current && t != s.current && At(s, t).quantum <= 0 then 5 else At(s, t).quantum)
  }

  lemma PutFields(m: Threads, t: Tid, r: Thread)
    requires t in m && r.priority == m[t].priority && r.quantum == m[t].quantum
    ensures Fields(m, m[t := r])
  {
  }

  lemma FieldsTwice(m0: Threads, m1: Threads, m2: Threads)
    requires Fields(m0, m1) && Fields(m1, m2)
    ensures Fields(m0, m2)
  {
    forall t
      ensures Get(m2, t).priority == Get(m0, t).priority && Get(m2, t).quantum == Get(m0, t).quantum
    {
      assert Get(m1, t).priority == Get(m0, t).priority;
    }
  }

  lemma ReschedFields(s: Sched)
    requires forall p, t :: 0 <= p < 32 && t in s.run[p] ==> t in s.threads
    ensures Refilled(s, Resched(s))
  {
    var p := Top(s.run, 31);
    if 0 <= p {
      assert s.run[p][0] in s.run[p];
    }
  }

  lemma QueuedExist(s: Sched)
    requires RunOk(s.threads, s.run, {})
    ensures forall p, t :: 0 <= p < 32 && t in s.run[p] ==> t in s.threads
  {
    forall p, t | 0 <= p < 32 && t in s.run[p]
      ensures t in s.threads
    {
      assert Get(s.threads, t).state == Ready;
    }
  }

  /** Changing nothing of this and then rescheduling. */
  lemma ThenResched(s: Sched, s1: Sched)
    requires Fields(s.threads, s1.threads) && s1.current == s.current && RunOk(s1.threads, s1.run, {})
    ensures Refilled(s, Resched(s1))
  {
    QueuedExist(s1);
    ReschedFields(s1);
    hide RunOk, Resched;
    forall t
      ensures At(Resched(s1), t).priority == At(s, t).priority
      ensures At(s1, t).quantum == At(s, t).quantum
    {
      assert Get(s1.threads, t).priority == Get(s.threads, t).priority;
      assert At(Resched(s1), t).priority == At(s1, t).priority;
    }
  }

  /** Changing nothing of this and not switching. */
  lemma NoSwitch(s: Sched, s1: Sched)
    requires Fields(s.threads, s1.threads) && s1.current == s.current
    ensures Refilled(s, s1)
  {
    forall t
      ensures At(s1, t).priority == At(s, t).priority && At(s1, t).quantum == At(s, t).quantum
    {
      assert Get(s1.threads, t).priority == Get(s.threads, t).priority;
    }
  }

  lemma {:induction false} DrainFields(s: Sched, w: WaitQueueId, err: int)
    requires Wf(s, {})
    ensures Fields(s.threads, Drain(s, w, err).threads)
    decreases |Waiting(s, w)|
  {
    if Waiting(s, w) != [] {
      var t := Waiting(s, w)[0];
      assert t in Waiting(s, w);
      assert At(s, t).state == Blocked;
      UnparkOk(s, {}, w, t, err);
      var s1 := PushHead(Detach(s, w, t, err), t);
      PutFields(s.threads, t, At(s1, t));
      hide Wf, Fields;
      DrainFields(s1, w, err);
      FieldsTwice(s.threads, s1.threads, Drain(s, w, err).threads);
    }
  }

  lemma RequeueFields(s: Sched)
    requires s.current in s.threads
    ensures Fields(s.threads, RequeueHead(s).threads) && RequeueHead(s).current == s.current
  {
  }

  lemma CurrentExists(s: Sched)
    requires Inv(s)
    ensures s.current in s.threads
  {
  }

  lemma RunningExists(k: Kernel)
    requires KInv(k)
    ensures k.s.current in k.s.threads && At(k.s, k.s.current).state == Running
  {
    hide Rest;
    CurrentExists(k.s);
  }

  lemma WakeAllFields(s: Sched, w: WaitQueueId, resched: bool, err: int)
    requires Inv(s)
    ensures Refilled(s, WakeAll(s, w, resched, err))
  {
    hide WaitsOk, ThreadsOk, RunOk, Resched, Fields, Refilled, Drain;
    if resched && Waiting(s, w) != [] {
      CurrentExists(s);
      RequeueHeadOk(s, {});
      DrainedOk(s, w, err);
      RequeueFields(s);
      DrainFields(RequeueHead(s), w, err);
      DrainOk(RequeueHead(s), w, err);
      FieldsTwice(s.threads, RequeueHead(s).threads, Drain(RequeueHead(s), w, err).threads);
      ThenResched(s, Drain(RequeueHead(s), w, err));
    } else {
      DrainFields(s, w, err);
      DrainOk(s, w, err);
      NoSwitch(s, Drain(s, w, err));
    }
  }

  lemma DetachFields(s: Sched, w: WaitQueueId, t: Tid, err: int)
    requires Inv(s) && t in Waiting(s, w)
    ensures Fields(s.threads, Detach(s, w, t, err).threads) && Detach(s, w, t, err).current == s.current
    ensures s.current in Detach(s, w, t, err).threads
  {
    assert At(s, t).state == Blocked;
    CurrentExists(s);
  }

  lemma WakeOneFields(s: Sched, w: WaitQueueId, resched: bool, err: int)
    requires Inv(s)
    ensures Refilled(s, WakeOne(s, w, resched, err))
  {
    hide Inv, Switchable, Resched, Fields, Refilled, Detach, RequeueHead;
    if Waiting(s, w) == [] {
      NoChange(s);
    } else {
      var t := Waiting(s, w)[0];
      assert t in Waiting(s, w);
      var s1 := Detach(s, w, t, err);
      DetachFields(s, w, t, err);
      if resched {
        HandOverOk(s, w, t, err);
        RequeueFields(s1);
        FieldsTwice(s.threads, s1.threads, RequeueHead(s1).threads);
        SwitchableRun(PushHead(RequeueHead(s1), t));
        ThenResched(s, PushHead(RequeueHead(s1), t));
      } else {
        NoSwitch(s, PushHead(s1, t));
      }
    }
  }

  lemma SwitchableRun(s: Sched)
    requires Switchable(s)
    ensures RunOk(s.threads, s.run, {})
  {
  }

  lemma NoChange(s: Sched)
    ensures Refilled(s, s) && Fields(s.threads, s.threads)
  {
  }

  lemma UnblockFields(s: Sched, t: Tid, err: int)
    ensures Fields(s.threads, Unblock(s, t, err).threads) && Unblock(s, t, err).current == s.current
  {
  }

  lemma {:induction false} FireDueFields(k: Kernel, now: int)
    requires KInv(k)
    ensures Fields(k.s.threads, FireDue(k, now).s.threads)
    decreases |k.timers|
  {
    hide Inv, Rest, Fields;
    if k.timers == [] || now < k.timers[0].due {
      NoChange(k.s);
    } else {
      var k1 := k.(timers := k.timers[1..], s := Fire(k.s, k.timers[0].who));
      FireWaked(k, now);
      FireFields(k);
      hide Fire;
      FireDueFields(k1, now);
      FieldsTwice(k.s.threads, k1.s.threads, FireDue(k, now).s.threads);
    }
  }

  lemma FireFields(k: Kernel)
    requires KInv(k) && k.timers != []
    ensures Fields(k.s.threads, Fire(k.s, k.timers[0].who).threads)
  {
    hide Inv, Fields, Unblock;
    match k.timers[0].who
    case SleepWake(t) =>
      assert Has(k.timers, SleepWake(t));
      assert Look(k.s.threads, t).kind == Asleep;
      PutFields(k.s.threads, t, At(k.s, t).(state := Ready));
    case WaitTimeout(t) => UnblockFields(k.s, t, ERR_TIMED_OUT);
  }

  // ---------- the whole step ----------

  /** A thread's priority after the step. */
  function PriorityAfter(k: Kernel, st: Step, t: Tid): int {
    match st
    case Create(u, p) => if u == t then p else At(k.s, t).priority
    case SetPriority(p) =>
      if t != k.s.current then At(k.s, t).priority else if p < 0 then 0 else if p > 31 then 31 else p
    case BecomeIdle => if t == k.s.current then 0 else At(k.s, t).priority
    case _ => At(k.s, t).priority
  }

  /** The time a thread has left before the step switches. */
  function Left(k: Kernel, st: Step, t: Tid): int {
    var q := At(k.s, t).quantum;
    match st
    case Create(u, _) => if u == t then 0 else q
    case Yield => if t == k.s.current then 0 else q
    case Resume(u) => if t == k.s.current && At(k.s, u).state == Suspended then 0 else q
    case Tick(_) => if t == k.s.current && k.s.idle != Some(t) then q - 1 else q
    case _ => q
  }

  /** What a step does to priorities and time slices of the threads there are, and who is there. */
  ghost predicate FieldsAfter(k: Kernel, st: Step, s': Sched) {
    forall t ::
      && (t in s'.threads <==> (t in k.s.threads && !Frees(k, st, t)) || (st.Create? && st.t == t))
      && (t in s'.threads ==>
            && At(s', t).priority == PriorityAfter(k, st, t)
            && At(s', t).quantum == if t == s'.current && t != k.s.current && Left(k, st, t) <= 0 then 5 else Left(k, st, t))
  }

  /** The steps that leave both alone until they switch. */
  predicate Neutral(st: Step) {
    !(st.Create? || st.SetPriority? || st.BecomeIdle? || st.Yield? || st.Resume? || st.Tick? || st.DpcCall?)
  }

  lemma NeutralAfter(k: Kernel, st: Step, s': Sched)
    requires Neutral(st) && Refilled(k.s, s')
    ensures FieldsAfter(k, st, s')
  {
  }

  lemma SignalFields(k: Kernel, e: nat, resched: bool)
    requires KInv(k)
    ensures Refilled(k.s, SignalEvent(k, e, resched).s)
  {
    hide Inv, Rest, WakeOne, WakeAll, Refilled;
    NoChange(k.s);
    WakeOneFields(k.s, OfEvent(e), resched, NO_ERROR);
    WakeAllFields(k.s, OfEvent(e), resched, NO_ERROR);
  }

  lemma BlockFields(s: Sched, w: WaitQueueId)
    requires Inv(s) && s.current != BOOT
    ensures Refilled(s, Block(s, w))
  {
    CurrentExists(s);
    ParkOk(s, w);
    hide Inv, RunOk, WaitsOk, ThreadsOk, Resched, Refilled;
    ThenResched(s, Park(s, w));
  }

  lemma RetireFields(s: Sched, st: ThreadState)
    requires Inv(s) && s.current != BOOT && st in {Sleeping, Death}
    ensures Refilled(s, Retire(s, st))
  {
    CurrentExists(s);
    RetiredOk(s, st);
    SwitchableRun(SetState(s, s.current, st));
    hide Inv, Switchable, RunOk, Resched, Refilled;
    ThenResched(s, SetState(s, s.current, st));
  }

  lemma PreemptFields(s: Sched)
    requires Inv(s)
    ensures Refilled(s, Scheduler.Preempt(s))
  {
    CurrentExists(s);
    RunningFacts(s);
    var r := At(s, s.current).(state := Ready);
    RequeuedOk(s, r);
    SwitchableRun(PushHead(Put(s, s.current, r), s.current));
    SwitchableRun(PushTail(Put(s, s.current, r), s.current));
    PutFields(s.threads, s.current, r);
    hide Inv, Switchable, RunOk, Resched, Refilled, Wf, Fields;
    ThenResched(s, PushHead(Put(s, s.current, r), s.current));
    ThenResched(s, PushTail(Put(s, s.current, r), s.current));
  }

  /** A yield takes the caller's time, and then switches. */
  lemma YieldFields(s: Sched)
    requires Inv(s)
    ensures Refilled(Put(s, s.current, At(s, s.current).(quantum := 0)), Scheduler.Yield(s))
    ensures s.current in s.threads
  {
    CurrentExists(s);
    RunningFacts(s);
    var s0 := Put(s, s.current, At(s, s.current).(quantum := 0));
    var r := At(s, s.current).(state := Ready, quantum := 0);
    RequeuedOk(s, r);
    var s1 := PushTail(Put(s, s.current, r), s.current);
    SwitchableRun(s1);
    hide Inv, Switchable, RunOk, Resched, Refilled, Wf;
    ThenResched(s0, s1);
  }

  lemma ExitFields(k: Kernel)
    requires KInv(k) && k.s.current != BOOT && k.s.current !in k.inWait
    ensures Refilled(k.s, ExitThread(k).s)
  {
    hide Inv, Rest, WaitsOk, ThreadsOk, Resched, ExitThread, Drain, Refilled, RunOk;
    var c, w := k.s.current, OfEvent(DPC_EVENT);
    var s1 := SetState(k.s, c, Death);
    var s2 := if EventOf(k, DPC_EVENT).signalled then s1 else Drain(s1, w, NO_ERROR);
    CurrentExists(k.s);
    ExitMoves(k, s1, s2);
    PutFields(k.s.threads, c, At(k.s, c).(state := Death));
    hide Fields;
    DrainFields(s1, w, NO_ERROR);
    DrainOk(s1, w, NO_ERROR);
    FieldsTwice(k.s.threads, s1.threads, s1.threads) by { NoChange(s1); }
    FieldsTwice(k.s.threads, s1.threads, Drain(s1, w, NO_ERROR).threads);
    ThenResched(k.s, s2);
  }

  lemma NeutralStep(k: Kernel, st: Step)
    requires KInv(k) && Enabled(k, st) && Neutral(st)
    ensures Refilled(k.s, Apply(k, st).s)
  {
    hide Inv, Rest, Refilled, Block, Insert, Retire, Scheduler.Preempt, WakeOne, WakeAll, SignalEvent, ExitThread;
    match st
    case Exit => ExitFields(k);
    case Sleep(_, _) => RetireFields(k.s, Sleeping);
    case Preempt => PreemptFields(k.s);
    case Release(u) => NoChange(k.s); WakeOneFields(k.s, OfMutex(u), true, NO_ERROR);
    case EventDestroy(e) => WakeAllFields(k.s, OfEvent(e), true, ERR_OBJECT_DESTROYED);
    case Signal(e, resched) => SignalFields(k, e, resched);
    case QueueDpc(d, resched) => QueueFields(k, d, resched);
    case Acquire(_, _, _) => JoinFields(k, st);
    case EventWait(_, _, _) => JoinFields(k, st);
    case DpcWait => JoinFields(k, st);
    case Return => FinishThreads(k); NoChange(k.s);
    case _ => NoSwitchFields(k.s, Apply(k, st).s);
  }

  lemma NoSwitchFields(s: Sched, s': Sched)
    requires s'.threads == s.threads && s'.current == s.current
    ensures Refilled(s, s')
  {
    NoSwitch(s, s') by { NoChange(s); }
  }

  lemma QueueFields(k: Kernel, d: Dpc, resched: bool)
    requires KInv(k)
    ensures Refilled(k.s, PostDpc(k, d, resched).s)
  {
    hide KInv, WakeOne, WakeAll, Refilled;
    assert PostDpc(k, d, resched).s == SignalEvent(k, DPC_EVENT, resched).s;
    SignalFields(k, DPC_EVENT, resched);
  }

  lemma JoinFields(k: Kernel, st: Step)
    requires KInv(k) && Enabled(k, st) && (st.Acquire? || st.EventWait? || st.DpcWait?)
    ensures Refilled(k.s, Apply(k, st).s)
  {
    hide Inv, Rest, Block, Insert, Refilled;
    DpcNotBoot(k);
    DpcEventFacts(k);
    if JoinedQueue(k, st).Some? {
      BlockFields(k.s, JoinedQueue(k, st).value);
      assert Apply(k, st).s == Block(k.s, JoinedQueue(k, st).value);
    } else {
      NoChange(k.s);
    }
  }

  lemma TickFields(k: Kernel, now: int)
    requires KInv(k)
    ensures FieldsAfter(k, Tick(now), TickTimers(k, now).s)
  {
    hide Inv, Rest, FireDue, Scheduler.Preempt;
    var k1 := FireDue(k, now);
    FireDueOk(k, now);
    FireDueFields(k, now);
    FireDueIdle(k, now);
    ChargeOk(k1.s);
    CurrentExists(k1.s);
    PreemptFields(Charge(k1.s));
    var s' := TickTimers(k, now).s;
    forall t
      ensures && (t in s'.threads <==> t in k.s.threads) && At(s', t).priority == At(k.s, t).priority
              && At(s', t).quantum == if t == s'.current && t != k.s.current && Left(k, Tick(now), t) <= 0 then 5
                                      else Left(k, Tick(now), t)
    {
      assert Get(k1.s.threads, t).priority == Get(k.s.threads, t).priority;
      assert At(s', t).priority == At(Charge(k1.s), t).priority;
    }
  }

  lemma {:induction false} FireDueIdle(k: Kernel, now: int)
    ensures FireDue(k, now).s.idle == k.s.idle
    decreases |k.timers|
  {
    if k.timers != [] && k.timers[0].due <= now {
      FireDueIdle(k.(timers := k.timers[1..], s := Fire(k.s, k.timers[0].who)), now);
    }
  }

  lemma ResumeFields(k: Kernel, u: Tid)
    requires KInv(k) && Enabled(k, Resume(u))
    ensures FieldsAfter(k, Resume(u), ResumeThread(k.s, u))
  {
    hide Inv, Rest, Scheduler.Yield;
    RunningExists(k);
    if At(k.s, u).state == Suspended {
      ReadyOk(k.s, u);
      var s1 := PushHead(SetState(k.s, u, Ready), u);
      YieldFields(s1);
    }
  }

  lemma YieldStepFields(k: Kernel)
    requires KInv(k)
    ensures FieldsAfter(k, Step.Yield, Scheduler.Yield(k.s))
  {
    hide Rest, Scheduler.Yield, Inv;
    YieldFields(k.s);
  }

  lemma CreateFields(k: Kernel, u: Tid, p: Priority)
    requires KInv(k) && u !in k.s.threads
    ensures FieldsAfter(k, Step.Create(u, p), Scheduler.Create(k.s, u, p))
  {
    hide KInv;
    RunningExists(k);
    var s' := Scheduler.Create(k.s, u, p);
    forall t
      ensures At(s', t) == if t == u then Thread(p, Suspended, 0, None, NO_ERROR) else At(k.s, t)
    {
    }
  }

  lemma SetPriorityFields(s: Sched, p: int)
    requires s.current in s.threads
    ensures var s' := Scheduler.SetPriority(s, p);
            && s'.threads.Keys == s.threads.Keys && s'.current == s.current
            && forall t :: At(s', t).quantum == At(s, t).quantum
                           && At(s', t).priority == if t != s.current then At(s, t).priority
                                                    else if p < 0 then 0 else if p > 31 then 31 else p
  {
  }

  lemma OwnFields(k: Kernel, st: Step)
    requires KInv(k) && (st.SetPriority? || st.BecomeIdle?)
    ensures FieldsAfter(k, st, Apply(k, st).s)
  {
    hide KInv, Scheduler.SetPriority;
    RunningExists(k);
    SetPriorityFields(k.s, if st.SetPriority? then st.prio else IDLE_PRIORITY);
    var s' := Apply(k, st).s;
    forall t
      ensures At(s', t) == At(Scheduler.SetPriority(k.s, if st.SetPriority? then st.prio else IDLE_PRIORITY), t)
    {
    }
  }

  lemma CallFields(k: Kernel)
    requires KInv(k) && k.dpcPc.Holding?
    ensures FieldsAfter(k, DpcCall, CallDpc(k).s)
  {
    hide KInv;
    match k.dpcPc.d {
      case Cleanup(u) => FreedIsGone(k, u);
      case Call(_) =>
    }
    forall t | t in CallDpc(k).s.threads
      ensures At(CallDpc(k).s, t) == At(k.s, t)
    {
    }
  }

  /** The whole effect of any step on priorities, time slices and the set of threads. */
  lemma StepFields(k: Kernel, st: Step)
    requires KInv(k) && Enabled(k, st)
    ensures FieldsAfter(k, st, Apply(k, st).s)
  {
    hide KInv, FieldsAfter, Refilled, CallDpc, TickTimers, Scheduler.Yield, ResumeThread;
    match st
    case Create(u, p) => CreateFields(k, u, p);
    case SetPriority(_) => OwnFields(k, st);
    case BecomeIdle => OwnFields(k, st);
    case Yield => YieldStepFields(k);
    case Resume(u) => ResumeFields(k, u);
    case Tick(now) => TickFields(k, now);
    case DpcCall => CallFields(k);
    case _ => NeutralStep(k, st); NeutralAfter(k, st, Apply(k, st).s);
  }

  // ---------- the idle thread ----------

  lemma {:induction false} DrainIdle(s: Sched, w: WaitQueueId, err: int)
    ensures Drain(s, w, err).idle == s.idle
    decreases |Waiting(s, w)|
  {
    if Waiting(s, w) != [] {
      DrainIdle(PushHead(Detach(s, w, Waiting(s, w)[0], err), Waiting(s, w)[0]), w, err);
    }
  }

  lemma ReschedIdle(s: Sched)
    ensures Resched(s).idle == s.idle
  {
    hide Top;
  }

  lemma WakeAllIdle(s: Sched, w: WaitQueueId, resched: bool, err: int)
    ensures WakeAll(s, w, resched, err).idle == s.idle
  {
    hide Drain, Resched;
    DrainIdle(s, w, err);
    DrainIdle(RequeueHead(s), w, err);
    ReschedIdle(Drain(RequeueHead(s), w, err));
  }

  lemma WakeOneIdle(s: Sched, w: WaitQueueId, resched: bool, err: int)
    ensures WakeOne(s, w, resched, err).idle == s.idle
  {
    hide Resched, Detach;
    if Waiting(s, w) != [] {
      var t := Waiting(s, w)[0];
      DetachIdle(s, w, t, err);
      ReschedIdle(PushHead(RequeueHead(Detach(s, w, t, err)), t));
    }
  }

  lemma DetachIdle(s: Sched, w: WaitQueueId, t: Tid, err: int)
    ensures Detach(s, w, t, err).idle == s.idle
  {
  }

  lemma YieldIdle(s: Sched)
    ensures Scheduler.Yield(s).idle == s.idle
  {
    hide Resched;
    ReschedIdle(PushTail(Put(s, s.current, At(s, s.current).(state := Ready, quantum := 0)), s.current));
  }

  lemma PreemptIdle(s: Sched)
    ensures Scheduler.Preempt(s).idle == s.idle
  {
    hide Resched;
    ReschedIdle(PushHead(SetState(s, s.current, Ready), s.current));
    ReschedIdle(PushTail(SetState(s, s.current, Ready), s.current));
  }

  lemma ResumeIdle(s: Sched, t: Tid)
    ensures ResumeThread(s, t).idle == s.idle
  {
    hide Scheduler.Yield;
    YieldIdle(PushHead(SetState(s, t, Ready), t));
  }

  lemma LeavingIdle(s: Sched, w: WaitQueueId, st: ThreadState)
    ensures Retire(s, st).idle == s.idle && Block(s, w).idle == s.idle
  {
    hide Resched;
    ReschedIdle(SetState(s, s.current, st));
    ReschedIdle(Park(s, w));
  }

  lemma SignalIdle(k: Kernel, e: nat, resched: bool)
    ensures SignalEvent(k, e, resched).s.idle == k.s.idle
  {
    hide WakeOne, WakeAll;
    WakeOneIdle(k.s, OfEvent(e), resched, NO_ERROR);
    WakeAllIdle(k.s, OfEvent(e), resched, NO_ERROR);
  }

  lemma ExitIdle(k: Kernel)
    ensures ExitThread(k).s.idle == k.s.idle
  {
    hide SignalEvent, Resched;
    var k1 := PostDpc(k.(s := SetState(k.s, k.s.current, Death)), Cleanup(k.s.current), false);
    SignalIdle(k.(s := SetState(k.s, k.s.current, Death), dpcs := k.dpcs + [Cleanup(k.s.current)]), DPC_EVENT, false);
    ReschedIdle(k1.s);
  }

  lemma TickIdle(k: Kernel, now: int)
    ensures TickTimers(k, now).s.idle == k.s.idle
  {
    hide FireDue, Scheduler.Preempt;
    FireDueIdle(k, now);
    PreemptIdle(Charge(FireDue(k, now).s));
  }

  /** The idle thread is whoever called thread_become_idle last. */
  lemma IdleAfter(k: Kernel, st: Step)
    ensures Apply(k, st).s.idle == if st.BecomeIdle? then Some(k.s.current) else k.s.idle
  {
    if IsThreadStep(st) {
      IdleThreadStep(k, st);
    } else {
      IdleObjectStep(k, st);
    }
  }

  lemma IdleThreadStep(k: Kernel, st: Step)
    requires IsThreadStep(st)
    ensures Apply(k, st).s.idle == if st.BecomeIdle? then Some(k.s.current) else k.s.idle
  {
    hide Scheduler.Yield, Scheduler.Preempt, Retire, ResumeThread, ExitThread, TickTimers, Insert, Finish;
    match st
    case Exit => ExitIdle(k);
    case Yield => YieldIdle(k.s);
    case Sleep(_, _) => LeavingIdle(k.s, OfMutex(0), Sleeping);
    case Preempt => PreemptIdle(k.s);
    case Resume(t) => ResumeIdle(k.s, t);
    case Tick(now) => TickIdle(k, now);
    case Return => FinishThreads(k);
    case _ =>
  }

  lemma IdleObjectStep(k: Kernel, st: Step)
    requires !IsThreadStep(st)
    ensures Apply(k, st).s.idle == k.s.idle
  {
    hide Block, WakeAll, WakeOne, SignalEvent, Insert;
    match st
    case Acquire(u, _, _) => LeavingIdle(k.s, OfMutex(u), Death);
    case EventWait(e, _, _) => LeavingIdle(k.s, OfEvent(e), Death);
    case DpcWait => LeavingIdle(k.s, OfEvent(DPC_EVENT), Death);
    case Release(u) => WakeOneIdle(k.s, OfMutex(u), true, NO_ERROR);
    case EventDestroy(e) => WakeAllIdle(k.s, OfEvent(e), true, ERR_OBJECT_DESTROYED);
    case Signal(e, resched) => SignalIdle(k, e, resched);
    case QueueDpc(d, resched) => SignalIdle(k.(dpcs := k.dpcs + [d]), DPC_EVENT, resched);
    case _ =>
  }
}
