/**
 The whole effect of a step on the threads: whose view changes and how, who keeps or loses
 priority and time, and when the running thread is at least as urgent as every ready one.
 */
module Urgency {
  import opened Basics
  import opened Scheduler
  import opened SchedulerInv
  import opened SchedulerEffects
  import opened TimerQueue
  import opened KernelModel
  import opened KernelInv
  import opened KernelSteps
  import opened KernelViews
  import opened WaitTheorems
  import opened TimeTheorems

  // ---------- who is woken ----------

  /** The first of a queue, if any. */
  function First(q: seq<Tid>): seq<Tid> {
    if q == [] then [] else q[..1]
  }

  /** The threads that this step takes off the wait queue of a mutex or an event. */
  function WokenBy(k: Kernel, st: Step): seq<Tid> {
    match st
    case Release(u) => if MutexOf(k, u).count > 1 then First(Waiting(k.s, OfMutex(u))) else []
    case Signal(e, _) => SignalWakes(k, e)
    case QueueDpc(_, _) => SignalWakes(k, DPC_EVENT)
    case Exit => SignalWakes(k, DPC_EVENT)
    case EventDestroy(e) => Waiting(k.s, OfEvent(e))
    case _ => []
  }

  /** An event that is already signalled wakes nobody, an auto-unsignalling one the first, others all. */
  function SignalWakes(k: Kernel, e: nat): seq<Tid> {
    if EventOf(k, e).signalled then []
    else if EventOf(k, e).auto then First(Waiting(k.s, OfEvent(e)))
    else Waiting(k.s, OfEvent(e))
  }

  /** The thread whose structure this step frees. */
  predicate Frees(k: Kernel, st: Step, t: Tid) {
    st.DpcCall? && k.dpcPc == Holding(Cleanup(t))
  }

  /** The view of t after the step. */
  ghost function ViewAfter(k: Kernel, st: Step, t: Tid): View {
    var v := Look(k.s.threads, t);
    if t in WokenBy(k, st) then View(Active, None, WakeValue(st))
    else if t == k.s.current && JoinedQueue(k, st).Some? then View(Parked, JoinedQueue(k, st), NO_ERROR)
    else match st
      case Create(u, _) => if u == t then View(Fresh, None, NO_ERROR) else v
      case Resume(u) => if u == t then v.(kind := Active) else v
      case Exit => if t == k.s.current then v.(kind := Gone) else v
      case Sleep(_, _) => if t == k.s.current then v.(kind := Asleep) else v
      case DpcCall => if Frees(k, st, t) then View(Gone, None, NO_ERROR) else v
      case Tick(now) => TickedView(k, now, t)
      case _ => v
  }

  lemma WokenView(m: Threads, m': Threads, q: seq<Tid>, err: int, t: Tid)
    requires Woken(m, m', q, err)
    ensures Look(m', t) == if t in q then View(Active, None, err) else Look(m, t)
  {
  }

  lemma SameView(m: Threads, m': Threads, x: set<Tid>, t: Tid)
    requires Same(m, m', x) && t !in x
    ensures Look(m', t) == Look(m, t)
  {
  }

  lemma SignalView(k: Kernel, e: nat, resched: bool, t: Tid)
    requires KInv(k) && e in k.events
    ensures Look(SignalEvent(k, e, resched).s.threads, t)
         == if t in SignalWakes(k, e) then View(Active, None, NO_ERROR) else Look(k.s.threads, t)
  {
    hide Inv, Rest, WakeOne, WakeAll, Woken, Look;
    var w := OfEvent(e);
    if k.events[e].signalled {
    } else if k.events[e].auto {
      WakeOneWoken(k.s, w, resched, NO_ERROR);
      WokenView(k.s.threads, WakeOne(k.s, w, resched, NO_ERROR).threads,
                if Waiting(k.s, w) == [] then [] else [Waiting(k.s, w)[0]], NO_ERROR, t);
    } else {
      WakeAllWoken(k.s, w, resched, NO_ERROR);
      WokenView(k.s.threads, WakeAll(k.s, w, resched, NO_ERROR).threads, Waiting(k.s, w), NO_ERROR, t);
    }
  }

  lemma ReleaseView(k: Kernel, u: nat, t: Tid)
    requires KInv(k) && u in k.mutexes
    ensures Look(ReleaseMutex(k, u).s.threads, t) == ViewAfter(k, Release(u), t)
  {
    hide Inv, Rest, WakeOne, Woken, Look;
    var w := OfMutex(u);
    WakeOneWoken(k.s, w, true, NO_ERROR);
    WokenView(k.s.threads, WakeOne(k.s, w, true, NO_ERROR).threads,
              if Waiting(k.s, w) == [] then [] else [Waiting(k.s, w)[0]], NO_ERROR, t);
  }

  lemma DestroyView(k: Kernel, e: nat, t: Tid)
    requires KInv(k)
    ensures Look(DestroyEvent(k, e).s.threads, t) == ViewAfter(k, EventDestroy(e), t)
  {
    hide Inv, Rest, WakeAll, Woken, Look;
    var w := OfEvent(e);
    WakeAllWoken(k.s, w, true, ERR_OBJECT_DESTROYED);
    WokenView(k.s.threads, WakeAll(k.s, w, true, ERR_OBJECT_DESTROYED).threads, Waiting(k.s, w), ERR_OBJECT_DESTROYED, t);
  }

  lemma ExitView(k: Kernel, t: Tid)
    requires KInv(k) && k.s.current != BOOT && k.s.current !in k.inWait
    ensures Look(ExitThread(k).s.threads, t) == ViewAfter(k, Exit, t)
  {
    hide Inv, Rest, RunOk, WaitsOk, ThreadsOk, Resched, ExitThread, Drain;
    var c, w := k.s.current, OfEvent(DPC_EVENT);
    var s1 := SetState(k.s, c, Death);
    var s2 := if EventOf(k, DPC_EVENT).signalled then s1 else Drain(s1, w, NO_ERROR);
    ExitMoves(k, s1, s2);
    DpcEventFacts(k);
    ReschedLook(s2);
    DrainLook(s1, w, NO_ERROR);
    CurrentNotThere(k, w);
    PutLook(k.s.threads, c, At(k.s, c).(state := Death));
    hide Look, SetState;
    SameView(s2.threads, Resched(s2).threads, {}, t);
    if !EventOf(k, DPC_EVENT).signalled {
      WokenView(s1.threads, s2.threads, Waiting(k.s, w), NO_ERROR, t);
    }
    if t != c {
      SameView(k.s.threads, s1.threads, {c}, t);
    }
  }

  lemma CurrentNotThere(k: Kernel, w: WaitQueueId)
    requires KInv(k)
    ensures k.s.current !in Waiting(k.s, w)
  {
    hide KInv;
    QueuedOn(k, w);
    CurrentFacts(k);
  }

  /** Steps of the running thread that wake nobody. */
  lemma PlainView(k: Kernel, st: Step, t: Tid)
    requires KInv(k) && Enabled(k, st)
    requires st.Create? || st.Resume? || st.Yield? || st.Sleep? || st.SetPriority? || st.BecomeIdle? || st.Preempt?
    ensures Look(Apply(k, st).s.threads, t) == ViewAfter(k, st, t)
  {
    hide Inv, Rest, Scheduler.Yield, Retire, ResumeThread, Scheduler.Preempt, Same;
    var m, m' := k.s.threads, Apply(k, st).s.threads;
    match st
    case Create(u, p) =>
      PutLook(m, u, Thread(p, Suspended, 0, None, NO_ERROR));
      if t != u { SameView(m, m', {u}, t); }
    case Resume(u) =>
      ResumeLook(k.s, u);
      if t != u { SameView(m, m', {u}, t); }
    case Yield => YieldLook(k.s); SameView(m, m', {}, t);
    case Sleep(now, delay) =>
      RetireLook(k.s, Sleeping);
      if t != k.s.current { SameView(m, m', {k.s.current}, t); }
    case SetPriority(p) => SetPriorityLook(k.s, p); SameView(m, m', {}, t);
    case BecomeIdle => SetPriorityLook(k.s, IDLE_PRIORITY); SameView(m, m', {}, t);
    case Preempt => PreemptLook(k.s); SameView(m, m', {}, t);
  }

  lemma JoinView(k: Kernel, st: Step, t: Tid)
    requires KInv(k) && Enabled(k, st) && (st.Acquire? || st.EventWait? || st.DpcWait?)
    ensures Look(Apply(k, st).s.threads, t) == ViewAfter(k, st, t)
  {
    hide Inv, Rest, Block, Insert, Look, Same;
    DpcNotBoot(k);
    DpcEventFacts(k);
    var j := JoinedQueue(k, st);
    if j.Some? {
      BlockLook(k.s, j.value);
      assert Apply(k, st).s == Block(k.s, j.value);
      if t != k.s.current {
        SameView(k.s.threads, Block(k.s, j.value).threads, {k.s.current}, t);
      }
    } else {
      assert Apply(k, st).s == k.s;
    }
  }

  lemma CallView(k: Kernel, t: Tid)
    requires KInv(k) && k.dpcPc.Holding?
    ensures Look(CallDpc(k).s.threads, t) == ViewAfter(k, DpcCall, t)
  {
    hide KInv;
    match k.dpcPc.d
    case Cleanup(u) => assert t != u ==> Get(k.s.threads - {u}, t) == Get(k.s.threads, t);
    case Call(_) =>
  }

  lemma QueueView(k: Kernel, d: Dpc, resched: bool, t: Tid)
    requires KInv(k)
    ensures Look(PostDpc(k, d, resched).s.threads, t) == ViewAfter(k, QueueDpc(d, resched), t)
  {
    hide KInv, WakeOne, WakeAll, Look;
    DpcEventFacts(k);
    assert PostDpc(k, d, resched).s == SignalEvent(k, DPC_EVENT, resched).s;
    SignalView(k, DPC_EVENT, resched, t);
  }

  /** The whole effect of any step on any thread, as the blocking primitives see it. */
  lemma StepView(k: Kernel, st: Step, t: Tid)
    requires KInv(k) && Enabled(k, st)
    ensures Look(Apply(k, st).s.threads, t) == ViewAfter(k, st, t)
  {
    hide KInv, Look, Block, Resched, SignalEvent, ReleaseMutex, DestroyEvent, TickTimers, ExitThread, TickedView, CallDpc;
    match st
    case Exit => ExitView(k, t);
    case Release(u) => ReleaseView(k, u, t);
    case Signal(e, resched) => SignalView(k, e, resched, t);
    case EventDestroy(e) => DestroyView(k, e, t);
    case QueueDpc(d, resched) => hide PostDpc; QueueView(k, d, resched, t);
    case Acquire(_, _, _) => JoinView(k, st, t);
    case EventWait(_, _, _) => JoinView(k, st, t);
    case DpcWait => JoinView(k, st, t);
    case DpcCall => CallView(k, t);
    case Tick(now) => TickLook(k, now, t);
    case MutexInit(_) =>
    case EventInit(_, _, _) =>
    case Unsignal(_) =>
    case DpcTake =>
    case DpcReturn =>
    case Return => FinishThreads(k);
    case _ => PlainView(k, st, t);
  }

  lemma FinishThreads(k: Kernel)
    ensures Finish(k).s == k.s
  {
  }

  // ---------- who is urgent ----------

  /** The steps that end in thread_resched. */
  predicate Switches(k: Kernel, st: Step) {
    match st
    case Resume(t) => At(k.s, t).state == Suspended
    case Exit => true
    case Yield => true
    case Sleep(_, _) => true
    case Preempt => true
    case Tick(_) => true
    case Release(_) => WokenBy(k, st) != []
    case EventDestroy(_) => WokenBy(k, st) != []
    case Signal(_, resched) => resched && WokenBy(k, st) != []
    case QueueDpc(_, resched) => resched && WokenBy(k, st) != []
    case _ => JoinedQueue(k, st).Some?
  }

  /** The steps that may leave somebody more urgent waiting: waking without reschedule, and becoming
      less urgent oneself. */
  predicate Relaxes(k: Kernel, st: Step) {
    match st
    case Signal(_, resched) => !resched && WokenBy(k, st) != []
    case QueueDpc(_, resched) => !resched && WokenBy(k, st) != []
    case SetPriority(p) => p < At(k.s, k.s.current).priority
    case BecomeIdle => 0 < At(k.s, k.s.current).priority
    case _ => false
  }

  lemma SignalTop(k: Kernel, e: nat, resched: bool)
    requires KInv(k) && e in k.events
    ensures var s' := SignalEvent(k, e, resched).s;
            && (SignalWakes(k, e) != [] && resched ==> AtTop(s'))
            && (SignalWakes(k, e) == [] ==> s' == k.s)
            && (!resched ==> s'.current == k.s.current)
  {
    hide Inv, Rest, AtTop, Resched, Drain;
    var w := OfEvent(e);
    if k.events[e].signalled {
    } else if k.events[e].auto {
      WakeOneOk(k.s, w, resched, NO_ERROR);
    } else {
      WakeAllOk(k.s, w, resched, NO_ERROR);
      WakeAllStays(k.s, w, resched, NO_ERROR);
    }
  }

  lemma WakeAllStays(s: Sched, w: WaitQueueId, resched: bool, err: int)
    requires Inv(s)
    ensures Waiting(s, w) == [] ==> WakeAll(s, w, resched, err) == s
    ensures !resched ==> WakeAll(s, w, resched, err).current == s.current
  {
    hide RunOk, WaitsOk, ThreadsOk;
    DrainOk(s, w, err);
  }

  lemma ExitTop(k: Kernel)
    requires KInv(k) && k.s.current != BOOT && k.s.current !in k.inWait
    ensures AtTop(ExitThread(k).s)
  {
    var t := k.s.current;
    var k1 := k.(s := SetState(k.s, t, Death));
    ExitStart(k);
    ExitSignal(k1);
    var k2 := SignalEvent(k1, DPC_EVENT, false);
    assert PostDpc(k1, Cleanup(t), false) == k2.(dpcs := k.dpcs + [Cleanup(t)]);
    hide Switchable, Inv, Resched, DpcOk, SignalEvent, AtTop;
    ReschedOk(k2.s);
  }

  lemma TickTop(k: Kernel, now: int)
    requires KInv(k)
    ensures AtTop(TickTimers(k, now).s)
  {
    hide Inv, Rest, AtTop, Scheduler.Preempt, Charge, FireDue;
    FireDueOk(k, now);
    ChargeOk(FireDue(k, now).s);
    PreemptOk(Charge(FireDue(k, now).s));
  }

  /** After every step that reschedules, nobody ready is more urgent than whoever runs. */
  lemma SwitchTop(k: Kernel, st: Step)
    requires KInv(k) && Enabled(k, st) && Switches(k, st)
    ensures AtTop(Apply(k, st).s)
  {
    hide Inv, Rest, AtTop, Scheduler.Yield, Scheduler.Preempt, ResumeThread, Retire, Block, Insert, WakeOne, WakeAll,
      ExitThread, TickTimers, SignalEvent;
    match st
    case Resume(t) => ResumeThreadOk(k.s, t);
    case Exit => ExitTop(k);
    case Yield => YieldOk(k.s);
    case Sleep(_, _) => RetireOk(k.s, Sleeping);
    case Preempt => PreemptOk(k.s);
    case Tick(now) => TickTop(k, now);
    case Release(u) => WakeOneOk(k.s, OfMutex(u), true, NO_ERROR);
    case EventDestroy(e) => WakeAllOk(k.s, OfEvent(e), true, ERR_OBJECT_DESTROYED);
    case Signal(e, resched) => SignalTop(k, e, resched);
    case QueueDpc(d, resched) => QueueTop(k, d, resched);
    case _ => JoinTop(k, st);
  }

  lemma QueueTop(k: Kernel, d: Dpc, resched: bool)
    requires KInv(k)
    ensures var s' := PostDpc(k, d, resched).s;
            && (SignalWakes(k, DPC_EVENT) != [] && resched ==> AtTop(s'))
            && (SignalWakes(k, DPC_EVENT) == [] ==> s' == k.s)
            && (!resched ==> s'.current == k.s.current)
  {
    hide KInv, AtTop, WakeOne, WakeAll;
    DpcEventFacts(k);
    assert PostDpc(k, d, resched).s == SignalEvent(k, DPC_EVENT, resched).s;
    SignalTop(k, DPC_EVENT, resched);
  }

  lemma JoinTop(k: Kernel, st: Step)
    requires KInv(k) && Enabled(k, st) && JoinedQueue(k, st).Some?
    ensures AtTop(Apply(k, st).s)
  {
    hide Inv, Rest, Block, Insert, AtTop;
    DpcNotBoot(k);
    DpcEventFacts(k);
    BlockOk(k.s, JoinedQueue(k, st).value);
    assert Apply(k, st).s == Block(k.s, JoinedQueue(k, st).value);
  }

  /** A step that does not reschedule leaves the running thread running, and at the top unless it relaxes. */
  lemma StayTop(k: Kernel, st: Step)
    requires KInv(k) && Enabled(k, st) && !Switches(k, st)
    ensures Apply(k, st).s.current == k.s.current
    ensures AtTop(k.s) && !Relaxes(k, st) ==> AtTop(Apply(k, st).s)
  {
    hide KInv, AtTop;
    if IsThreadStep(st) {
      StayTopThread(k, st);
    } else {
      StayTopObject(k, st);
    }
  }

  lemma StayTopThread(k: Kernel, st: Step)
    requires KInv(k) && Enabled(k, st) && !Switches(k, st) && IsThreadStep(st)
    ensures Apply(k, st).s.current == k.s.current
    ensures AtTop(k.s) && !Relaxes(k, st) ==> AtTop(Apply(k, st).s)
  {
    hide Inv, Rest, AtTop, Scheduler.SetPriority;
    match st
    case Create(t, p) => CreateTop(k.s, t, p);
    case SetPriority(p) => SetPriorityTop(k, p);
    case BecomeIdle =>
      SetPriorityTop(k, IDLE_PRIORITY);
      SameTop(Scheduler.SetPriority(k.s, IDLE_PRIORITY), Apply(k, st).s);
    case Resume(t) => NotWaitingFresh(k, t);
    case Return => FinishThreads(k);
  }

  lemma StayTopObject(k: Kernel, st: Step)
    requires KInv(k) && Enabled(k, st) && !Switches(k, st) && !IsThreadStep(st)
    ensures Apply(k, st).s.current == k.s.current
    ensures AtTop(k.s) && !Relaxes(k, st) ==> AtTop(Apply(k, st).s)
  {
    hide Inv, Rest, AtTop, Resched, Block, Insert, SignalEvent, WakeOne, WakeAll, PostDpc;
    match st
    case Release(u) => WakeOneKeeps(k.s, OfMutex(u), true, NO_ERROR);
    case EventDestroy(e) => WakeAllStays(k.s, OfEvent(e), true, ERR_OBJECT_DESTROYED);
    case Signal(e, resched) => SignalTop(k, e, resched);
    case QueueDpc(d, resched) => QueueTop(k, d, resched);
    case DpcCall => CallTop(k);
    case _ => SameTop(k.s, Apply(k, st).s);
  }

  /** Nobody new is ready, and the running thread is no less urgent. */
  lemma TopFrame(s: Sched, s': Sched)
    requires s'.current == s.current && At(s', s.current).priority >= At(s, s.current).priority
    requires forall t {:trigger At(s', t)} :: At(s', t).state == Ready ==> At(s, t).state == Ready && At(s, t).priority == At(s', t).priority
    ensures AtTop(s) ==> AtTop(s')
  {
    if AtTop(s) {
      forall t | At(s', t).state == Ready
        ensures At(s', t).priority <= At(s', s.current).priority
      {
        assert At(s, t).state == Ready;
      }
    }
  }

  lemma SameTop(s: Sched, s': Sched)
    requires s'.threads == s.threads && s'.current == s.current
    ensures AtTop(s) ==> AtTop(s')
  {
    forall t
      ensures At(s', t) == At(s, t)
    {
    }
    TopFrame(s, s');
  }

  lemma CreateTop(s: Sched, t: Tid, p: Priority)
    requires Inv(s) && t !in s.threads
    ensures AtTop(s) ==> AtTop(Scheduler.Create(s, t, p))
  {
    hide Wf;
    assert t != s.current;
    TopFrame(s, Scheduler.Create(s, t, p));
  }

  lemma SetPriorityTop(k: Kernel, p: int)
    requires KInv(k)
    ensures Scheduler.SetPriority(k.s, p).current == k.s.current
    ensures AtTop(k.s) && p >= At(k.s, k.s.current).priority ==> AtTop(Scheduler.SetPriority(k.s, p))
  {
    Running(k);
    hide KInv;
    var s' := Scheduler.SetPriority(k.s, p);
    forall t
      ensures At(s', t).state == At(k.s, t).state && (t != k.s.current ==> At(s', t) == At(k.s, t))
    {
    }
    if p >= At(k.s, k.s.current).priority {
      TopFrame(k.s, s');
    }
  }

  lemma Running(k: Kernel)
    requires KInv(k)
    ensures At(k.s, k.s.current).state == ThreadState.Running
  {
  }

  lemma CallTop(k: Kernel)
    requires KInv(k) && k.dpcPc.Holding?
    ensures CallDpc(k).s.current == k.s.current && (AtTop(k.s) ==> AtTop(CallDpc(k).s))
  {
    hide KInv;
    match k.dpcPc.d
    case Cleanup(u) =>
      FreedIsGone(k, u);
      var s' := CallDpc(k).s;
      forall t
        ensures At(s', t) == if t == u then DEAD else At(k.s, t)
      {
      }
      TopFrame(k.s, s');
    case Call(_) => SameTop(k.s, CallDpc(k).s);
  }

  lemma FreedIsGone(k: Kernel, u: Tid)
    requires KInv(k) && k.dpcPc == Holding(Cleanup(u))
    ensures Look(k.s.threads, u).kind == Gone && u != k.s.current
  {
    assert Cleanups(InHand(k.dpcPc) + k.dpcs)[0] == u;
    hide Inv;
    assert Look(k.s.threads, u).kind == Gone;
    CurrentFacts(k);
  }

  /** Has the last step that may leave somebody more urgent waiting been followed by a reschedule? */
  predicate Settled(k: Kernel, run: seq<Step>) {
    run == [] ||
    var before := run[..|run| - 1];
    || Switches(After(k, before), run[|run| - 1])
    || (Settled(k, before) && !Relaxes(After(k, before), run[|run| - 1]))
  }

  /** Priorities over every run from boot: whoever runs is at least as urgent as everybody who is
      ready, except between a step that relaxes this and the next one that reschedules. */
  lemma {:induction false} MostUrgentRuns(run: seq<Step>)
    requires Legal(Init(), run) && Settled(Init(), run)
    ensures AtTop(After(Init(), run).s)
  {
    hide KInv, Enabled, Apply, AtTop, Switches, Relaxes, Init;
    if run == [] {
      BootTop();
    } else {
      var before, st := run[..|run| - 1], run[|run| - 1];
      RunKeepsInv(before);
      if Switches(After(Init(), before), st) {
        SwitchTop(After(Init(), before), st);
      } else {
        MostUrgentRuns(before);
        StayTop(After(Init(), before), st);
      }
    }
  }

  lemma BootTop()
    ensures AtTop(Init().s)
  {
  }
}
