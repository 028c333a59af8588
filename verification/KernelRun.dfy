/**
 The code of KernelCode follows the state machine of KernelModel over whole runs: in every
 reachable state the code of every enabled step may run, and does what the step says.
 */
module KernelRun {
  import opened Basics
  import opened Scheduler
  import opened SchedulerInv
  import opened KernelModel
  import opened KernelInv
  import opened KernelSteps
  import opened KernelCode

  /** What the invariant gives the code of a step to rely on. */
  lemma Reliable(k: Kernel)
    requires KInv(k)
    ensures Inv(k.s) && DPC_EVENT in k.events && !k.events[DPC_EVENT].auto
    ensures forall t :: t in k.inWait && k.inWait[t].w.OfMutex? ==> k.inWait[t].w.m in k.mutexes
    ensures forall w :: Distinct(Waiting(k.s, w))
  {
  }

  method PerformThreadStep(k: KernelCode, st: Step)
    requires k.Valid() && KInv(k.Abs()) && Enabled(k.Abs(), st) && IsThreadStep(st)
    modifies k
    ensures k.Valid() && k.Abs() == Apply(old(k.Abs()), st)
  {
    hide KInv, Inv, Apply, BitmapOk, CountsOk, Lists, Distinct;
    Reliable(k.Abs());
    match st
    case Create(t, p) => k.ThreadCreate(t, p);
    case Resume(t) => var _ := k.ThreadResume(t);
    case Exit => k.ThreadExit();
    case Yield => k.ThreadYield();
    case Sleep(now, delay) => k.ThreadSleep(now, delay);
    case SetPriority(p) => k.ThreadSetPriority(p);
    case BecomeIdle => k.ThreadBecomeIdle();
    case Return => var _ := k.FinishWait();
    case Preempt => k.ThreadPreempt();
    case Tick(now) => k.TimerTick(now);
  }

  method PerformObjectStep(k: KernelCode, st: Step)
    requires k.Valid() && KInv(k.Abs()) && Enabled(k.Abs(), st) && !IsThreadStep(st)
    modifies k
    ensures k.Valid() && k.Abs() == Apply(old(k.Abs()), st)
  {
    hide KInv, Inv, BitmapOk, CountsOk, Lists, Distinct, WaitEvent, SignalEvent, PostDpc, TakeDpc, AcquireMutex,
      ReleaseMutex, DestroyEvent, Finish, ExitThread, TickTimers, CallDpc, Scheduler.Create, ResumeThread, Scheduler.Yield,
      Scheduler.Preempt, Retire;
    Reliable(k.Abs());
    DpcIsNotBoot(k.Abs(), st);
    match st {
      case MutexInit(u) => k.MutexInit(u);
      case Acquire(u, now, timeout) => var _ := k.MutexAcquire(u, now, timeout);
      case Release(u) => k.MutexRelease(u);
      case EventInit(e, initial, auto) => k.EventInit(e, initial, auto);
      case EventWait(e, now, timeout) => var _ := k.EventWaitTimeout(e, now, timeout);
      case Signal(e, reschedule) =>
        k.ListDistinct(OfEvent(e));
        k.EventSignal(e, reschedule);
      case Unsignal(e) => k.EventUnsignal(e);
      case EventDestroy(e) => k.EventDestroyed(e);
      case QueueDpc(d, reschedule) =>
        k.ListDistinct(OfEvent(DPC_EVENT));
        k.DpcQueue(d, reschedule);
      case DpcWait => k.DpcWaitForWork();
      case DpcTake => var _ := k.DpcTake();
      case DpcCall => k.DpcCallback();
      case DpcReturn => k.DpcLoop();
    }
  }

  /** Only the deferred-call thread takes the steps of its loop, and it is not the bootstrap thread. */
  lemma DpcIsNotBoot(k: Kernel, st: Step)
    requires Enabled(k, st)
    ensures IsDpcStep(st) ==> k.s.current != BOOT
  {
  }

  /** The code of any enabled step moves the kernel as the state machine does, and keeps its invariant. */
  method Perform(k: KernelCode, st: Step)
    requires k.Valid() && KInv(k.Abs()) && Enabled(k.Abs(), st)
    modifies k
    ensures k.Valid() && k.Abs() == Apply(old(k.Abs()), st) && KInv(k.Abs())
  {
    hide KInv, Enabled, Apply, BitmapOk, CountsOk, Lists;
    StepKeepsInv(k.Abs(), st);
    if IsThreadStep(st) {
      PerformThreadStep(k, st);
    } else {
      PerformObjectStep(k, st);
    }
  }

  /** Every prefix of a legal run is legal, and its next step is enabled. */
  lemma {:induction false} LegalPrefix(k: Kernel, run: seq<Step>, i: nat)
    requires Legal(k, run) && i < |run|
    ensures Legal(k, run[..i]) && Enabled(After(k, run[..i]), run[i])
    ensures After(k, run[..i + 1]) == Apply(After(k, run[..i]), run[i])
    decreases |run|
  {
    hide Enabled, Apply;
    var last := |run| - 1;
    assert run[..i + 1][..i] == run[..i];
    if i < last {
      assert run[..last][..i] == run[..i];
      LegalPrefix(k, run[..last], i);
    }
  }

  /** From boot, any legal run can be carried out by the code, and ends where the state machine does. */
  method RunFromBoot(run: seq<Step>) returns (k: KernelCode)
    requires Legal(Init(), run)
    ensures fresh(k) && k.Valid() && k.Abs() == After(Init(), run) && KInv(k.Abs())
  {
    hide KInv, Enabled, Apply, BitmapOk, CountsOk, Lists, Init, Legal;
    k := new KernelCode();
    InitOk();
    var i := 0;
    while i < |run|
      invariant i <= |run| && fresh(k) && k.Valid() && KInv(k.Abs()) && k.Abs() == After(Init(), run[..i])
    {
      LegalPrefix(Init(), run, i);
      Perform(k, run[i]);
      i := i + 1;
    }
    assert run[..i] == run;
  }
}
