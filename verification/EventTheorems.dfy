/** What kernel/event.c and kernel/dpc.c promise over whole runs. */
module EventTheorems {
  import opened Basics
  import opened Scheduler
  import opened SchedulerInv
  import opened SchedulerEffects
  import opened TimerQueue
  import opened KernelModel
  import opened KernelInv
  import opened KernelSteps
  import opened KernelViews
  import opened MutexTheorems

  // ---------- events ----------

  /** In every reachable state a signalled event has no thread waiting on it. */
  lemma SignalledHasNoWaiter(run: seq<Step>, e: nat)
    requires Legal(Init(), run)
    ensures EventOf(After(Init(), run), e).signalled ==> Waiting(After(Init(), run).s, OfEvent(e)) == []
  {
    RunKeepsInv(run);
    hide Inv;
  }

  predicate SignalStep(st: Step, e: nat) {
    st.Signal? && st.e == e
  }

  /** Waits on e that succeed in this step: a wait that falls through, or waiters released by a signal. */
  function Succeeded(k: Kernel, st: Step, e: nat): int {
    if st.EventWait? && st.e == e && EventOf(k, e).signalled then 1
    else if SignalStep(st, e) then |Waiting(k.s, OfEvent(e))| - |Waiting(Apply(k, st).s, OfEvent(e))|
    else 0
  }

  /** Signals that add nothing (the event is already signalled) and signals withdrawn by event_unsignal. */
  function Dropped(k: Kernel, st: Step, e: nat): int {
    if (SignalStep(st, e) || (st.Unsignal? && st.e == e)) && EventOf(k, e).signalled then 1 else 0
  }

  function Latched(k: Kernel, e: nat): int {
    if EventOf(k, e).signalled then 1 else 0
  }

  function Signals(run: seq<Step>, e: nat): int {
    if run == [] then 0 else Signals(run[..|run| - 1], e) + if SignalStep(run[|run| - 1], e) then 1 else 0
  }

  function Successes(k: Kernel, run: seq<Step>, e: nat): int {
    if run == [] then 0 else
      Successes(k, run[..|run| - 1], e) + Succeeded(After(k, run[..|run| - 1]), run[|run| - 1], e)
  }

  function Drops(k: Kernel, run: seq<Step>, e: nat): int {
    if run == [] then 0 else
      Drops(k, run[..|run| - 1], e) + Dropped(After(k, run[..|run| - 1]), run[|run| - 1], e)
  }

  /** Only these steps write event e. */
  lemma EventFields(k: Kernel, st: Step, e: nat)
    requires Enabled(k, st) && e in k.events && e != DPC_EVENT
    requires !(st.EventWait? && st.e == e) && !SignalStep(st, e)
    requires !(st.Unsignal? && st.e == e) && !(st.EventDestroy? && st.e == e)
    ensures e in Apply(k, st).events && Apply(k, st).events[e] == k.events[e]
  {
    hide Block, Resched, WakeOne, WakeAll, Retire, ResumeThread, FireDue, Insert, Remove;
    if st.Tick? {
      FireDueMutexes(k, st.now);
    }
  }

  /** One step on an auto-unsignalling event: every signal is latched, handed to one waiter, or dropped. */
  lemma AutoStep(k: Kernel, st: Step, e: nat)
    requires KInv(k) && Enabled(k, st) && e in k.events && e != DPC_EVENT && k.events[e].auto
    requires !(st.EventDestroy? && st.e == e)
    ensures e in Apply(k, st).events && Apply(k, st).events[e].auto
    ensures Succeeded(k, st, e) + Latched(Apply(k, st), e) + Dropped(k, st, e)
         == Latched(k, e) + if SignalStep(st, e) then 1 else 0
    ensures 0 <= Succeeded(k, st, e) <= 1
  {
    hide Inv, Rest, WakeOne, Block, Woken;
    if SignalStep(st, e) {
      WakeOneWoken(k.s, OfEvent(e), st.resched, NO_ERROR);
    } else if st.EventWait? && st.e == e {
    } else if st.Unsignal? && st.e == e {
    } else {
      hide Apply, Enabled;
      EventFields(k, st, e);
    }
  }

  /** Conservation of signals over any run that does not destroy the event: each signal of an
      AUTOUNSIGNAL event is consumed by exactly one successful wait, still latched, or dropped. */
  lemma {:induction false} AutoConservation(k: Kernel, run: seq<Step>, e: nat)
    requires KInv(k) && Legal(k, run) && e in k.events && e != DPC_EVENT && k.events[e].auto
    requires EventDestroy(e) !in run
    ensures KInv(After(k, run)) && e in After(k, run).events && After(k, run).events[e].auto
    ensures Successes(k, run, e) + Latched(After(k, run), e) + Drops(k, run, e) == Latched(k, e) + Signals(run, e)
    ensures 0 <= Drops(k, run, e)
    ensures Successes(k, run, e) + Latched(After(k, run), e) <= Latched(k, e) + Signals(run, e)
  {
    hide KInv, Apply, Enabled, Latched, Succeeded;
    if run != [] {
      var before, st := run[..|run| - 1], run[|run| - 1];
      assert st in run && forall x :: x in before ==> x in run;
      AutoConservation(k, before, e);
      StepKeepsInv(After(k, before), st);
      AutoStep(After(k, before), st, e);
    }
  }

  // ---------- events that stay signalled ----------

  /** A new event is as it was asked to be, and nobody waits on it. */
  lemma NewEvent(k: Kernel, e: nat, initial: bool, auto: bool)
    requires KInv(k) && Enabled(k, EventInit(e, initial, auto))
    ensures var k' := Apply(k, EventInit(e, initial, auto));
            && e in k'.events && k'.events[e].signalled == initial && k'.events[e].auto == auto
            && Waiting(k'.s, OfEvent(e)) == []
  {
    hide KInv;
  }

  /** Whether e is signalled according to the last event_signal or event_unsignal of the run. */
  predicate LastSignalled(initial: bool, run: seq<Step>, e: nat) {
    if run == [] then initial
    else if SignalStep(run[|run| - 1], e) then true
    else if run[|run| - 1] == Unsignal(e) then false
    else LastSignalled(initial, run[..|run| - 1], e)
  }

  /** The steps that signal e: event_signal, and for the private event of kernel/dpc.c posting a call. */
  predicate Sets(st: Step, e: nat) {
    SignalStep(st, e) || (e == DPC_EVENT && (st.QueueDpc? || st.Exit?))
  }

  /** The steps that take the signal away: event_unsignal, and finding the list of deferred calls empty. */
  predicate Clears(k: Kernel, st: Step, e: nat) {
    st == Unsignal(e) || (e == DPC_EVENT && st.DpcTake? && k.dpcs == [])
  }

  /** One step on an event without AUTOUNSIGNAL: only those steps change it, waiting does not. */
  lemma ManualStep(k: Kernel, st: Step, e: nat)
    requires KInv(k) && Enabled(k, st) && e in k.events && !k.events[e].auto && st != EventDestroy(e)
    ensures var k' := Apply(k, st);
            && e in k'.events && !k'.events[e].auto
            && k'.events[e].signalled == if Sets(st, e) then true else if Clears(k, st, e) then false else k.events[e].signalled
  {
    hide Inv, Rest, WakeAll, WakeOne, Block, Insert, Resched;
    if Sets(st, e) || st == Unsignal(e) || (st.EventWait? && st.e == e) {
    } else if e == DPC_EVENT {
      hide Apply, Enabled;
      DpcEventStep(k, st);
    } else {
      hide Apply, Enabled;
      EventFields(k, st, e);
    }
  }

  lemma DpcEventStep(k: Kernel, st: Step)
    requires Enabled(k, st) && DPC_EVENT in k.events && !k.events[DPC_EVENT].auto && !st.QueueDpc? && !st.Exit?
    ensures var k' := Apply(k, st);
            && DPC_EVENT in k'.events
            && k'.events[DPC_EVENT] == if st.DpcTake? && k.dpcs == [] then Event(false, false) else k.events[DPC_EVENT]
  {
    hide Block, Resched, WakeOne, WakeAll, Retire, ResumeThread, FireDue, Insert, Remove;
    if st.Tick? {
      FireDueMutexes(k, st.now);
    }
  }

  /** Mutexes and events exist from their initialisation on, events until they are destroyed. */
  lemma ObjectsAfter(k: Kernel, st: Step)
    requires KInv(k) && Enabled(k, st)
    ensures forall e :: e in Apply(k, st).events <==> (e in k.events && st != EventDestroy(e)) || (st.EventInit? && st.e == e)
    ensures forall u :: u in Apply(k, st).mutexes <==> u in k.mutexes || st == MutexInit(u)
  {
    hide KInv, Apply;
    DpcEventFacts(k);
    if st.Return? {
      hide Enabled;
      ReturnObjects(k);
      ReturnIs(k);
    } else if IsThreadStep(st) {
      hide Enabled;
      ThreadObjects(k, st);
    } else {
      ObjectObjects(k, st);
    }
  }

  lemma ReturnIs(k: Kernel)
    ensures Apply(k, Return) == Finish(k)
  {
    hide Finish;
  }

  lemma ThreadObjects(k: Kernel, st: Step)
    requires IsThreadStep(st) && !st.Return? && DPC_EVENT in k.events
    ensures Apply(k, st).events.Keys == k.events.Keys && Apply(k, st).mutexes == k.mutexes
  {
    hide Resched, WakeAll, WakeOne, Retire, ResumeThread, FireDue, Insert, Scheduler.Yield, Scheduler.Preempt, Charge, SetState;
    if st.Tick? {
      FireDueMutexes(k, st.now);
    }
  }

  lemma ObjectObjects(k: Kernel, st: Step)
    requires Enabled(k, st) && !IsThreadStep(st) && DPC_EVENT in k.events
    ensures forall e :: e in Apply(k, st).events <==> (e in k.events && st != EventDestroy(e)) || (st.EventInit? && st.e == e)
    ensures forall u :: u in Apply(k, st).mutexes <==> u in k.mutexes || st == MutexInit(u)
  {
    hide Block, WakeAll, WakeOne, Insert;
  }

  lemma ReturnObjects(k: Kernel)
    requires KInv(k) && k.s.current in k.inWait
    ensures Finish(k).events == k.events && Finish(k).mutexes.Keys == k.mutexes.Keys
  {
    hide Inv, Look, CallsOk, ObjectsOk, TimersOk, DpcOk;
    assert k.inWait[k.s.current].w.OfMutex? ==> k.inWait[k.s.current].w.m in k.mutexes;
  }

  /** Over every run that does not destroy it, an event without AUTOUNSIGNAL is signalled exactly if the
      last event_signal or event_unsignal was a signal; and whoever waits while it is signalled falls through. */
  lemma {:induction false} ManualIsLastSet(k: Kernel, run: seq<Step>, e: nat)
    requires KInv(k) && Legal(k, run) && e in k.events && e != DPC_EVENT && !k.events[e].auto
    requires EventDestroy(e) !in run
    ensures KInv(After(k, run)) && e in After(k, run).events && !After(k, run).events[e].auto
    ensures After(k, run).events[e].signalled == LastSignalled(k.events[e].signalled, run, e)
    ensures After(k, run).events[e].signalled ==> Waiting(After(k, run).s, OfEvent(e)) == []
    ensures forall now, timeout :: After(k, run).events[e].signalled ==>
              Apply(After(k, run), EventWait(e, now, timeout)) == After(k, run)
  {
    hide KInv, Apply, Enabled;
    if run != [] {
      var before, st := run[..|run| - 1], run[|run| - 1];
      assert st in run && forall x :: x in before ==> x in run;
      ManualIsLastSet(k, before, e);
      StepKeepsInv(After(k, before), st);
      ManualStep(After(k, before), st, e);
    }
    if After(k, run).events[e].signalled {
      SignalledFallsThrough(After(k, run), e);
    }
  }

  lemma SignalledFallsThrough(k: Kernel, e: nat)
    requires KInv(k) && e in k.events && !k.events[e].auto && k.events[e].signalled
    ensures Waiting(k.s, OfEvent(e)) == []
    ensures forall now, timeout :: Apply(k, EventWait(e, now, timeout)) == k
  {
    hide Inv;
  }

  // ---------- deferred calls ----------

  function Posted(k: Kernel, st: Step): seq<Dpc> {
    match st
    case QueueDpc(d, _) => [d]
    case Exit => [Cleanup(k.s.current)]
    case _ => []
  }

  function Invoked(k: Kernel, st: Step): seq<Dpc> {
    if st.DpcCall? then InHand(k.dpcPc) else []
  }

  function AllPosted(k: Kernel, run: seq<Step>): seq<Dpc> {
    if run == [] then [] else
      AllPosted(k, run[..|run| - 1]) + Posted(After(k, run[..|run| - 1]), run[|run| - 1])
  }

  function AllInvoked(k: Kernel, run: seq<Step>): seq<Dpc> {
    if run == [] then [] else
      AllInvoked(k, run[..|run| - 1]) + Invoked(After(k, run[..|run| - 1]), run[|run| - 1])
  }

  /** Outside its own loop only dpc_queue and thread_exit touch the list, at its tail. */
  lemma DpcFields(k: Kernel, st: Step)
    requires Enabled(k, st) && !IsDpcStep(st)
    ensures Apply(k, st).dpcs == k.dpcs + Posted(k, st) && Apply(k, st).dpcPc == k.dpcPc
  {
    hide Block, Resched, WakeOne, WakeAll, Retire, ResumeThread, FireDue, Insert, Remove, SetState, Charge, At;
    if st.Tick? {
      FireDueMutexes(k, st.now);
    }
  }

  lemma DpcStep(k: Kernel, st: Step)
    requires Enabled(k, st)
    ensures InHand(k.dpcPc) + k.dpcs + Posted(k, st)
         == Invoked(k, st) + InHand(Apply(k, st).dpcPc) + Apply(k, st).dpcs
  {
    hide Apply, Enabled;
    if IsDpcStep(st) {
      OwnLoop(k, st);
    } else {
      DpcFields(k, st);
    }
  }

  lemma OwnLoop(k: Kernel, st: Step)
    requires Enabled(k, st) && IsDpcStep(st)
    ensures Posted(k, st) == []
    ensures InHand(k.dpcPc) + k.dpcs == Invoked(k, st) + InHand(Apply(k, st).dpcPc) + Apply(k, st).dpcs
  {
    hide WaitEvent, TakeDpc, CallDpc;
    match st
    case DpcWait => WaitDpcs(k.(dpcPc := AtTake), DPC_EVENT);
    case DpcTake => TakeDpcs(k);
    case DpcCall => CallDpcs(k);
    case DpcReturn =>
  }

  lemma TakeDpcs(k: Kernel)
    ensures k.dpcs == InHand(TakeDpc(k).dpcPc) + TakeDpc(k).dpcs
  {
    if k.dpcs != [] {
      assert k.dpcs == [k.dpcs[0]] + k.dpcs[1..];
    }
  }

  lemma CallDpcs(k: Kernel)
    ensures CallDpc(k).dpcs == k.dpcs && CallDpc(k).dpcPc == InCallback
  {
  }

  lemma WaitDpcs(k: Kernel, e: nat)
    ensures WaitEvent(k, e, 0, None).dpcs == k.dpcs && WaitEvent(k, e, 0, None).dpcPc == k.dpcPc
  {
    hide Block, Insert;
  }

  /** How often a kind of step occurs. */
  function Count(run: seq<Step>, p: Step -> bool): nat {
    if run == [] then 0 else Count(run[..|run| - 1], p) + if p(run[|run| - 1]) then 1 else 0
  }

  function If(b: bool): nat {
    if b then 1 else 0
  }

  /** The loop of the deferred-call thread over every run: after each wait one look at the list, after
      each call found one callback, after each callback one return, then the next wait. */
  lemma {:induction false} DpcLoops(run: seq<Step>)
    requires Legal(Init(), run)
    ensures var pc := After(Init(), run).dpcPc;
            && Count(run, (st: Step) => st.DpcWait?) == Count(run, (st: Step) => st.DpcTake?) + If(pc == AtTake)
            && |AllInvoked(Init(), run)| == Count(run, (st: Step) => st.DpcCall?)
            && Count(run, (st: Step) => st.DpcCall?) == Count(run, (st: Step) => st.DpcReturn?) + If(pc == InCallback)
  {
    hide Apply, Enabled, Init;
    if run == [] {
      InitPc();
    } else {
      var before, st := run[..|run| - 1], run[|run| - 1];
      DpcLoops(before);
      LoopStep(After(Init(), before), st);
    }
  }

  lemma InitPc()
    ensures Init().dpcPc == AtWait
  {
  }

  lemma LoopStep(k: Kernel, st: Step)
    requires Enabled(k, st)
    ensures var pc := Apply(k, st).dpcPc;
            && If(st.DpcWait?) + If(k.dpcPc == AtTake) == If(st.DpcTake?) + If(pc == AtTake)
            && If(st.DpcCall?) + If(k.dpcPc == InCallback) == If(st.DpcReturn?) + If(pc == InCallback)
            && |Invoked(k, st)| == If(st.DpcCall?)
  {
    if IsDpcStep(st) {
      hide Block, Insert;
    } else {
      hide Apply, Enabled;
      DpcFields(k, st);
    }
  }

  /** Over any run the callbacks invoked are exactly those queued, in order, each once, except the
      one in hand and those still in the list. */
  lemma {:induction false} DpcInOrder(run: seq<Step>)
    requires Legal(Init(), run)
    ensures var k := After(Init(), run);
            AllPosted(Init(), run) == AllInvoked(Init(), run) + InHand(k.dpcPc) + k.dpcs
  {
    hide KInv, Apply, Enabled, Posted, Invoked, InHand;
    if run == [] {
      InitHand();
    } else {
      var before, st := run[..|run| - 1], run[|run| - 1];
      DpcInOrder(before);
      RunKeepsInv(before);
      var k := After(Init(), before);
      DpcStep(k, st);
      var a, h := AllInvoked(Init(), before), InHand(k.dpcPc);
      assert AllPosted(Init(), run) == a + h + k.dpcs + Posted(k, st);
      assert a + h + k.dpcs + Posted(k, st) == a + (h + k.dpcs + Posted(k, st));
      assert a + (Invoked(k, st) + InHand(Apply(k, st).dpcPc) + Apply(k, st).dpcs)
          == (a + Invoked(k, st)) + InHand(Apply(k, st).dpcPc) + Apply(k, st).dpcs;
    }
  }

  lemma InitHand()
    ensures InHand(Init().dpcPc) == [] && Init().dpcs == []
  {
  }

  /** No lost wake-up: while work is queued, the deferred-call thread is not waiting for any. */
  lemma NoLostWakeup(run: seq<Step>)
    requires Legal(Init(), run)
    ensures var k := After(Init(), run);
            k.dpcs != [] ==> EventOf(k, DPC_EVENT).signalled && forall t :: t !in Waiting(k.s, OfEvent(DPC_EVENT))
  {
    RunKeepsInv(run);
    SignalledHasNoWaiter(run, DPC_EVENT);
    hide Inv;
  }
}
