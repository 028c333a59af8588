/** Every step of the kernel keeps the invariant of KernelInv. */
module KernelSteps {
  import opened Basics
  import opened Scheduler
  import opened SchedulerInv
  import opened SchedulerEffects
  import opened TimerQueue
  import opened KernelModel
  import opened KernelInv

  // ---------- entering wait_queue_block ----------

  lemma BlockCalls(m: Threads, m': Threads, inWait: InWait, t: Tid, c: Wait)
    requires CallsOk(m, inWait) && Same(m, m', {t}) && Look(m', t) == View(Parked, Some(c.w), NO_ERROR)
    ensures CallsOk(m', inWait[t := c])
  {
  }

  lemma BlockTimers(m: Threads, m': Threads, inWait: InWait, timers: Timers, t: Tid, w: WaitQueueId, due: Option<int>)
    requires TimersOk(m, inWait, timers) && Same(m, m', {t}) && t !in inWait
    requires Look(m, t).kind == Active && Look(m', t).kind == Parked
    ensures TimersOk(m', inWait[t := Wait(w, due.Some?)],
                     if due.Some? then Insert(timers, Entry(due.value, WaitTimeout(t))) else timers)
  {
    if due.Some? {
      InsertFacts(timers, Entry(due.value, WaitTimeout(t)));
    }
  }

  lemma BlockObjects(waits: Scheduler.Waits, waits': Scheduler.Waits, mutexes: Mutexes, mutexes': Mutexes,
                     events: Events, w: WaitQueueId, t: Tid)
    requires ObjectsOk(waits, mutexes, events) && mutexes.Keys <= mutexes'.Keys
    requires forall v :: Queue(waits', v) == Queue(waits, v) + if v == w then [t] else []
    requires w.OfMutex? ==> w.m in mutexes
    requires w.OfEvent? ==> w.e in events && !events[w.e].signalled
    ensures ObjectsOk(waits', mutexes', events)
  {
  }

  lemma BlockMutex(m: Threads, m': Threads, inWait: InWait, mutexes: Mutexes, t: Tid, u: nat, timed: bool)
    requires MutexOk(m, inWait, mutexes) && Same(m, m', {t}) && t !in inWait
    requires Look(m', t).kind == Parked && u in mutexes
    ensures MutexOk(m', inWait[t := Wait(OfMutex(u), timed)],
                    mutexes[u := mutexes[u].(count := mutexes[u].count + 1)])
  {
    var inWait' := inWait[t := Wait(OfMutex(u), timed)];
    forall v
      ensures |Acquirers(inWait', v)| == |Acquirers(inWait, v)| + if v == u then 1 else 0
    {
      EnterAcquirers(inWait, t, u, timed, v);
    }
    hide Acquirers;
    assert forall x, v :: Handed(m', inWait', v, x) ==> Handed(m, inWait, v, x);
  }

  lemma EnterAcquirers(inWait: InWait, t: Tid, u: nat, timed: bool, v: nat)
    requires t !in inWait
    ensures |Acquirers(inWait[t := Wait(OfMutex(u), timed)], v)| == |Acquirers(inWait, v)| + if v == u then 1 else 0
  {
    var inWait' := inWait[t := Wait(OfMutex(u), timed)];
    assert t !in Acquirers(inWait, v);
    assert Acquirers(inWait', v) == if v == u then Acquirers(inWait, v) + {t} else Acquirers(inWait, v);
  }

  lemma BlockEvent(m: Threads, m': Threads, inWait: InWait, mutexes: Mutexes, t: Tid, e: nat, timed: bool)
    requires MutexOk(m, inWait, mutexes) && Same(m, m', {t}) && t !in inWait
    ensures MutexOk(m', inWait[t := Wait(OfEvent(e), timed)], mutexes)
  {
    var inWait' := inWait[t := Wait(OfEvent(e), timed)];
    assert forall v :: Acquirers(inWait', v) == Acquirers(inWait, v);
    assert forall x, v :: Handed(m', inWait', v, x) ==> Handed(m, inWait, v, x);
  }

  predicate CanJoin(k: Kernel, w: WaitQueueId) {
    match w
    case OfMutex(u) => u in k.mutexes
    case OfEvent(e) => e in k.events && !k.events[e].signalled
  }

  /** The mutexes after a thread started to wait on w. */
  function Counted(k: Kernel, w: WaitQueueId): Mutexes
    requires CanJoin(k, w)
  {
    match w
    case OfMutex(u) => k.mutexes[u := k.mutexes[u].(count := k.mutexes[u].count + 1)]
    case OfEvent(_) => k.mutexes
  }

  lemma BlockRest(k: Kernel, k': Kernel, w: WaitQueueId, now: int, timeout: Option<nat>)
    requires Rest(k) && k.s.current !in k.inWait && CanJoin(k, w)
    requires Look(k.s.threads, k.s.current).kind == Active
    requires k.s.current !in Cleanups(InHand(k.dpcPc) + k.dpcs)
    requires k' == BlockOn(k.(mutexes := Counted(k, w)), w, now, timeout)
    requires Same(k.s.threads, k'.s.threads, {k.s.current}) && Keeps(k.s.threads, k'.s.threads)
    requires Look(k'.s.threads, k.s.current) == View(Parked, Some(w), NO_ERROR)
    requires forall v :: Queue(k'.s.waits, v) == Queue(k.s.waits, v) + if v == w then [k.s.current] else []
    ensures Rest(k')
  {
    hide CallsOk, TimersOk, MutexOk, DpcOk, ObjectsOk;
    var m, m', t := k.s.threads, k'.s.threads, k.s.current;
    BlockCalls(m, m', k.inWait, t, Wait(w, timeout.Some?));
    BlockTimers(m, m', k.inWait, k.timers, t, w, if timeout.Some? then Some(now + timeout.value) else None);
    BlockObjects(k.s.waits, k'.s.waits, k.mutexes, k'.mutexes, k.events, w, t);
    DpcFrame(m, m', k.events, k.dpcs, k.dpcPc, {t});
    match w
    case OfMutex(u) => BlockMutex(m, m', k.inWait, k.mutexes, t, u, timeout.Some?);
    case OfEvent(e) => BlockEvent(m, m', k.inWait, k.mutexes, t, e, timeout.Some?);
  }

  lemma BlockKeeps(s: Sched, w: WaitQueueId)
    ensures Keeps(s.threads, Block(s, w).threads)
  {
  }

  lemma BlockOnOk(k: Kernel, w: WaitQueueId, now: int, timeout: Option<nat>)
    requires KInv(k) && k.s.current !in k.inWait && k.s.current != BOOT && CanJoin(k, w)
    ensures KInv(BlockOn(k.(mutexes := Counted(k, w)), w, now, timeout))
  {
    hide Inv, Rest, Block;
    CurrentFacts(k);
    BlockOk(k.s, w);
    BlockLook(k.s, w);
    BlockKeeps(k.s, w);
    assert forall v :: Queue(Block(k.s, w).waits, v) == Waiting(Block(k.s, w), v);
    BlockRest(k, BlockOn(k.(mutexes := Counted(k, w)), w, now, timeout), w, now, timeout);
  }

  // ---------- waking ----------

  lemma WokenCalls(m: Threads, m': Threads, inWait: InWait, q: seq<Tid>, err: int)
    requires CallsOk(m, inWait) && Woken(m, m', q, err)
    requires forall t :: t in q ==> t in inWait
    ensures CallsOk(m', inWait)
  {
  }

  lemma WokenTimers(m: Threads, m': Threads, inWait: InWait, timers: Timers, q: seq<Tid>, err: int)
    requires TimersOk(m, inWait, timers) && Woken(m, m', q, err)
    requires forall t :: t in q ==> Look(m, t).kind == Parked
    ensures TimersOk(m', inWait, timers)
  {
  }

  lemma WokenDpc(m: Threads, m': Threads, events: Events, dpcs: seq<Dpc>, pc: DpcPc, q: seq<Tid>, err: int)
    requires DpcOk(m, events, dpcs, pc) && Woken(m, m', q, err) && Keeps(m, m')
    requires forall t :: t in q ==> Look(m, t).kind == Parked
    ensures DpcOk(m', events, dpcs, pc)
  {
  }

  lemma WokenEvent(m: Threads, m': Threads, inWait: InWait, mutexes: Mutexes, q: seq<Tid>, err: int)
    requires MutexOk(m, inWait, mutexes) && Woken(m, m', q, err)
    requires forall t :: t in q ==> t in inWait && inWait[t].w.OfEvent?
    ensures MutexOk(m', inWait, mutexes)
  {
    assert forall x, v :: Handed(m', inWait, v, x) ==> Handed(m, inWait, v, x);
  }

  lemma WokenTimeout(m: Threads, m': Threads, inWait: InWait, mutexes: Mutexes, t: Tid)
    requires MutexOk(m, inWait, mutexes) && Woken(m, m', [t], ERR_TIMED_OUT)
    requires t in inWait && inWait[t].timed
    ensures MutexOk(m', inWait, mutexes)
  {
    assert forall x, v :: Handed(m', inWait, v, x) ==> Handed(m, inWait, v, x);
  }

  /** The hand-off of mutex_release: the recorded owner leaves and t, if any, is handed the mutex. */
  lemma WokenRelease(m: Threads, m': Threads, inWait: InWait, mutexes: Mutexes, u: nat, q: seq<Tid>)
    requires MutexOk(m, inWait, mutexes) && Woken(m, m', q, NO_ERROR) && |q| <= 1
    requires u in mutexes && mutexes[u].holder.Some?
    requires forall t :: t in q ==> t in inWait && inWait[t].w == OfMutex(u)
    ensures MutexOk(m', inWait, mutexes[u := Mutex(mutexes[u].count - 1, None)])
  {
    assert forall x, v :: Handed(m', inWait, v, x) ==> x in q || Handed(m, inWait, v, x);
    assert forall x :: !Handed(m, inWait, u, x);
  }

  lemma {:induction false} DrainKeeps(s: Sched, w: WaitQueueId, err: int)
    ensures Keeps(s.threads, Drain(s, w, err).threads)
    decreases |Waiting(s, w)|
  {
    if Waiting(s, w) != [] {
      DrainKeeps(PushHead(Detach(s, w, Waiting(s, w)[0], err), Waiting(s, w)[0]), w, err);
    }
  }

  lemma WakeAllKeeps(s: Sched, w: WaitQueueId, resched: bool, err: int)
    ensures Keeps(s.threads, WakeAll(s, w, resched, err).threads)
  {
    DrainKeeps(s, w, err);
    DrainKeeps(RequeueHead(s), w, err);
  }

  lemma InvWaits(s: Sched)
    requires Inv(s)
    ensures WaitsOk(s.threads, s.waits, {})
  {
  }

  /** Everyone in q, all waiting on w, was woken: the parts that do not depend on what w is. */
  lemma WokenFrame(k: Kernel, s': Sched, w: WaitQueueId, q: seq<Tid>, err: int)
    requires Rest(k) && WaitsOk(k.s.threads, k.s.waits, {})
    requires Woken(k.s.threads, s'.threads, q, err) && Keeps(k.s.threads, s'.threads)
    requires forall t :: t in q ==> t in Waiting(k.s, w)
    ensures forall t :: t in q ==> t in k.inWait && k.inWait[t].w == w && Look(k.s.threads, t).kind == Parked
    ensures CallsOk(s'.threads, k.inWait) && TimersOk(s'.threads, k.inWait, k.timers)
    ensures DpcOk(s'.threads, k.events, k.dpcs, k.dpcPc)
    ensures w.OfEvent? ==> MutexOk(s'.threads, k.inWait, k.mutexes)
  {
    forall t | t in q
      ensures t in k.inWait && k.inWait[t].w == w && Look(k.s.threads, t).kind == Parked
    {
      ParkedFacts(k, w, t);
    }
    var m, m' := k.s.threads, s'.threads;
    WokenCalls(m, m', k.inWait, q, err);
    WokenTimers(m, m', k.inWait, k.timers, q, err);
    WokenDpc(m, m', k.events, k.dpcs, k.dpcPc, q, err);
    if w.OfEvent? {
      WokenEvent(m, m', k.inWait, k.mutexes, q, err);
    }
  }

  lemma WakeOneKeeps(s: Sched, w: WaitQueueId, resched: bool, err: int)
    ensures Keeps(s.threads, WakeOne(s, w, resched, err).threads)
    ensures Waiting(s, w) == [] ==> WakeOne(s, w, resched, err) == s
  {
  }

  lemma WakeOneWoken(s: Sched, w: WaitQueueId, resched: bool, err: int)
    requires Inv(s)
    ensures Inv(WakeOne(s, w, resched, err)) && Keeps(s.threads, WakeOne(s, w, resched, err).threads)
    ensures Woken(s.threads, WakeOne(s, w, resched, err).threads,
                  if Waiting(s, w) == [] then [] else [Waiting(s, w)[0]], err)
    ensures forall v :: Queue(WakeOne(s, w, resched, err).waits, v)
                     == if v == w && Waiting(s, w) != [] then Waiting(s, w)[1..] else Queue(s.waits, v)
  {
    hide Inv, WakeOne;
    WakeOneOk(s, w, resched, err);
    WakeOneKeeps(s, w, resched, err);
    if Waiting(s, w) != [] {
      WakeOneLook(s, w, resched, err);
    }
  }

  lemma ReleaseRest(k: Kernel, s': Sched, u: nat, q: seq<Tid>)
    requires Rest(k) && WaitsOk(k.s.threads, k.s.waits, {})
    requires u in k.mutexes && k.mutexes[u].holder.Some? && |q| <= 1
    requires Woken(k.s.threads, s'.threads, q, NO_ERROR) && Keeps(k.s.threads, s'.threads)
    requires forall t :: t in q ==> t in Waiting(k.s, OfMutex(u))
    requires forall v :: Queue(s'.waits, v) != [] ==> Queue(k.s.waits, v) != []
    ensures Rest(k.(mutexes := k.mutexes[u := Mutex(k.mutexes[u].count - 1, None)], s := s'))
  {
    WokenFrame(k, s', OfMutex(u), q, NO_ERROR);
    WokenRelease(k.s.threads, s'.threads, k.inWait, k.mutexes, u, q);
    ShrinkObjects(k.s.waits, s'.waits, k.mutexes, k.events);
  }

  lemma ReleaseOk(k: Kernel, u: nat)
    requires KInv(k) && u in k.mutexes && k.mutexes[u].holder.Some?
    ensures KInv(ReleaseMutex(k, u))
  {
    hide Inv, WaitsOk, CallsOk, TimersOk, MutexOk, DpcOk, ObjectsOk, WakeOne, Woken;
    InvWaits(k.s);
    var w := OfMutex(u);
    WakeOneWoken(k.s, w, true, NO_ERROR);
    if k.mutexes[u].count - 1 >= 1 {
      ReleaseRest(k, WakeOne(k.s, w, true, NO_ERROR), u, if Waiting(k.s, w) == [] then [] else [Waiting(k.s, w)[0]]);
    } else {
      ReleaseRest(k, k.s, u, []);
    }
  }

  lemma ShrinkObjects(waits: Scheduler.Waits, waits': Scheduler.Waits, mutexes: Mutexes, events: Events)
    requires ObjectsOk(waits, mutexes, events)
    requires forall v :: Queue(waits', v) != [] ==> Queue(waits, v) != []
    ensures ObjectsOk(waits', mutexes, events)
  {
  }

  lemma DpcEventFrame(m: Threads, events: Events, events': Events, dpcs: seq<Dpc>, pc: DpcPc)
    requires DpcOk(m, events, dpcs, pc) && DPC_EVENT in events'
    requires events'[DPC_EVENT].auto == events[DPC_EVENT].auto
    requires events[DPC_EVENT].signalled ==> events'[DPC_EVENT].signalled
    ensures DpcOk(m, events', dpcs, pc)
  {
  }

  /** Waking q from event e and possibly signalling it, with nobody left behind on a signalled event. */
  lemma WokenEventRest(k: Kernel, s': Sched, events': Events, e: nat, q: seq<Tid>, err: int)
    requires Rest(k) && WaitsOk(k.s.threads, k.s.waits, {})
    requires Woken(k.s.threads, s'.threads, q, err) && Keeps(k.s.threads, s'.threads)
    requires forall t :: t in q ==> t in Waiting(k.s, OfEvent(e))
    requires forall v :: Queue(s'.waits, v) != [] ==> Queue(k.s.waits, v) != []
    requires events' == k.events || Queue(s'.waits, OfEvent(e)) == []
    requires forall d :: d != e && d in k.events ==> d in events' && events'[d] == k.events[d]
    requires DpcOk(k.s.threads, events', k.dpcs, k.dpcPc)
    ensures Rest(k.(events := events', s := s'))
  {
    WokenFrame(k, s', OfEvent(e), q, err);
    WokenDpc(k.s.threads, s'.threads, events', k.dpcs, k.dpcPc, q, err);
    ShrinkObjects(k.s.waits, s'.waits, k.mutexes, k.events);
  }

  lemma SignalOk(k: Kernel, e: nat, resched: bool)
    requires KInv(k) && e in k.events
    ensures KInv(SignalEvent(k, e, resched))
    ensures e in SignalEvent(k, e, resched).events && SignalEvent(k, e, resched).events[e].auto == k.events[e].auto
    ensures !k.events[e].auto ==> SignalEvent(k, e, resched).events[e].signalled
  {
    hide KInv, WakeOne, WakeAll;
    if k.events[e].signalled {
    } else if k.events[e].auto {
      SignalAutoOk(k, e, resched);
    } else {
      SignalAllOk(k, e, resched);
    }
  }

  lemma SignalAutoOk(k: Kernel, e: nat, resched: bool)
    requires KInv(k) && e in k.events && !k.events[e].signalled && k.events[e].auto
    ensures KInv(SignalEvent(k, e, resched))
  {
    hide Inv, WaitsOk, WakeOne, WakeAll, Woken;
    InvWaits(k.s);
    var w, k' := OfEvent(e), SignalEvent(k, e, resched);
    DpcEventFrame(k.s.threads, k.events, k'.events, k.dpcs, k.dpcPc);
    WakeOneWoken(k.s, w, resched, NO_ERROR);
    WokenEventRest(k, k'.s, k'.events, e, if Waiting(k.s, w) == [] then [] else [Waiting(k.s, w)[0]], NO_ERROR);
  }

  lemma SignalAllOk(k: Kernel, e: nat, resched: bool)
    requires KInv(k) && e in k.events && !k.events[e].signalled && !k.events[e].auto
    ensures KInv(SignalEvent(k, e, resched))
  {
    hide Inv, WaitsOk, WakeOne, WakeAll, Woken;
    InvWaits(k.s);
    var w, k' := OfEvent(e), SignalEvent(k, e, resched);
    DpcEventFrame(k.s.threads, k.events, k'.events, k.dpcs, k.dpcPc);
    WakeAllWoken(k.s, w, resched, NO_ERROR);
    WokenEventRest(k, k'.s, k'.events, e, Waiting(k.s, w), NO_ERROR);
  }

  lemma WakeAllWoken(s: Sched, w: WaitQueueId, resched: bool, err: int)
    requires Inv(s)
    ensures Inv(WakeAll(s, w, resched, err)) && Keeps(s.threads, WakeAll(s, w, resched, err).threads)
    ensures Woken(s.threads, WakeAll(s, w, resched, err).threads, Waiting(s, w), err)
    ensures Emptied(s.waits, WakeAll(s, w, resched, err).waits, w)
  {
    WakeAllOk(s, w, resched, err);
    WakeAllKeeps(s, w, resched, err);
    WakeAllLook(s, w, resched, err);
  }

  lemma DestroyOk(k: Kernel, e: nat)
    requires KInv(k) && e in k.events && e != DPC_EVENT
    ensures KInv(DestroyEvent(k, e))
  {
    hide Inv, WaitsOk;
    InvWaits(k.s);
    WakeAllWoken(k.s, OfEvent(e), true, ERR_OBJECT_DESTROYED);
    WokenEventRest(k, DestroyEvent(k, e).s, k.events - {e}, e, Waiting(k.s, OfEvent(e)), ERR_OBJECT_DESTROYED);
  }

  // ---------- timers ----------

  lemma FireWakeSleeper(k: Kernel, t: Tid)
    requires KInv(k) && k.timers != [] && k.timers[0].who == SleepWake(t)
    ensures KInv(k.(timers := k.timers[1..], s := Scheduler.SleepWake(k.s, t)))
  {
    var s' := Scheduler.SleepWake(k.s, t);
    var m, m' := k.s.threads, s'.threads;
    assert Has(k.timers, SleepWake(t));
    assert Look(m, t).kind == Asleep;
    ReadyOk(k.s, t);
    PutLook(m, t, Get(m', t));
    TimerQueue.PopFacts(k.timers);
    CallsFrame(m, m', k.inWait, {t});
    MutexFrame(m, m', k.inWait, k.mutexes, {t});
    DpcFrame(m, m', k.events, k.dpcs, k.dpcPc, {t});
    SleeperTimers(m, m', k.inWait, k.timers, k.timers[1..], t);
  }

  lemma SleeperTimers(m: Threads, m': Threads, inWait: InWait, timers: Timers, timers': Timers, t: Tid)
    requires TimersOk(m, inWait, timers) && Same(m, m', {t}) && Look(m', t).kind == Active
    requires Sorted(timers') && Unique(timers') && t !in inWait
    requires forall x :: Has(timers', x) <==> Has(timers, x) && x != SleepWake(t)
    ensures TimersOk(m', inWait, timers')
  {
  }

  /** Dropping the timeout of a thread that is no longer queued, or whose timeout just fired. */
  lemma DropTimeout(m: Threads, inWait: InWait, timers: Timers, timers': Timers, t: Tid)
    requires TimersOk(m, inWait, timers)
    requires Look(m, t).kind != Parked
    requires Sorted(timers') && Unique(timers')
    requires forall x :: Has(timers', x) <==> Has(timers, x) && x != WaitTimeout(t)
    ensures TimersOk(m, inWait, timers')
  {
  }

  lemma TimeoutWoken(s: Sched, t: Tid)
    requires Inv(s)
    ensures Inv(Unblock(s, t, ERR_TIMED_OUT)) && Keeps(s.threads, Unblock(s, t, ERR_TIMED_OUT).threads)
    ensures Look(s.threads, t).kind != Parked ==> Unblock(s, t, ERR_TIMED_OUT) == s
    ensures Look(s.threads, t).kind == Parked ==>
              && Woken(s.threads, Unblock(s, t, ERR_TIMED_OUT).threads, [t], ERR_TIMED_OUT)
              && Look(s.threads, t).on.Some? && t in Waiting(s, Look(s.threads, t).on.value)
              && forall v :: Queue(Unblock(s, t, ERR_TIMED_OUT).waits, v) != [] ==> Queue(s.waits, v) != []
  {
    UnblockOk(s, t, ERR_TIMED_OUT);
    hide RunOk, ThreadsOk;
    UnblockLook(s, t, ERR_TIMED_OUT);
  }

  lemma FireTimeout(k: Kernel, t: Tid)
    requires KInv(k) && k.timers != [] && k.timers[0].who == WaitTimeout(t)
    ensures KInv(k.(timers := k.timers[1..], s := Unblock(k.s, t, ERR_TIMED_OUT)))
  {
    hide Inv, Unblock;
    var s' := Unblock(k.s, t, ERR_TIMED_OUT);
    assert Has(k.timers, WaitTimeout(t));
    TimeoutWoken(k.s, t);
    TimerQueue.PopFacts(k.timers);
    if Look(k.s.threads, t).kind == Parked {
      InvWaits(k.s);
      hide WaitsOk;
      WokenFrame(k, s', k.inWait[t].w, [t], ERR_TIMED_OUT);
      WokenTimeout(k.s.threads, s'.threads, k.inWait, k.mutexes, t);
      ShrinkObjects(k.s.waits, s'.waits, k.mutexes, k.events);
    }
    DropTimeout(s'.threads, k.inWait, k.timers, k.timers[1..], t);
  }

  lemma {:induction false} FireDueOk(k: Kernel, now: int)
    requires KInv(k)
    ensures KInv(FireDue(k, now))
    ensures FireDue(k, now).s.current == k.s.current && FireDue(k, now).inWait == k.inWait
    decreases |k.timers|
  {
    if k.timers != [] && k.timers[0].due <= now {
      var k1 := k.(timers := k.timers[1..], s := Fire(k.s, k.timers[0].who));
      match k.timers[0].who {
        case SleepWake(t) => FireWakeSleeper(k, t);
        case WaitTimeout(t) => FireTimeout(k, t);
      }
      FireDueOk(k1, now);
    }
  }

  lemma PreemptStepOk(k: Kernel)
    requires KInv(k)
    ensures KInv(k.(s := Scheduler.Preempt(k.s)))
  {
    PreemptOk(k.s);
    PreemptLook(k.s);
    QuietFrame(k, Scheduler.Preempt(k.s), {});
  }

  lemma ChargeStepOk(k: Kernel)
    requires KInv(k)
    ensures KInv(k.(s := Charge(k.s)))
  {
    ChargeOk(k.s);
    var r := At(k.s, k.s.current);
    RunningUpdateLook(k.s, r.(quantum := r.quantum - 1));
    QuietFrame(k, Charge(k.s), {});
  }

  lemma TickOk(k: Kernel, now: int)
    requires KInv(k)
    ensures KInv(TickTimers(k, now))
  {
    FireDueOk(k, now);
    var k1 := FireDue(k, now);
    ChargeStepOk(k1);
    PreemptStepOk(k1.(s := Charge(k1.s)));
  }

  // ---------- returning from wait_queue_block ----------

  lemma LeaveCalls(m: Threads, inWait: InWait, t: Tid)
    requires CallsOk(m, inWait) && Look(m, t).kind == Active
    ensures CallsOk(m, inWait - {t})
  {
  }

  lemma LeaveTimers(m: Threads, inWait: InWait, timers: Timers, t: Tid)
    requires TimersOk(m, inWait, timers) && Look(m, t).kind == Active && t in inWait
    ensures TimersOk(m, inWait - {t}, if inWait[t].timed then Remove(timers, WaitTimeout(t)) else timers)
  {
    RemoveFacts(timers, WaitTimeout(t));
  }

  lemma LeaveAcquirers(inWait: InWait, t: Tid, v: nat)
    requires t in inWait
    ensures |Acquirers(inWait - {t}, v)| == |Acquirers(inWait, v)| - if inWait[t].w == OfMutex(v) then 1 else 0
  {
    if inWait[t].w == OfMutex(v) {
      assert t in Acquirers(inWait, v);
      assert Acquirers(inWait - {t}, v) == Acquirers(inWait, v) - {t};
    } else {
      assert Acquirers(inWait - {t}, v) == Acquirers(inWait, v);
    }
  }

  lemma LeaveMutex(m: Threads, inWait: InWait, mutexes: Mutexes, t: Tid, u: nat, mx: Mutex)
    requires MutexOk(m, inWait, mutexes) && t in inWait && inWait[t].w == OfMutex(u) && Look(m, t).kind == Active
    requires Look(m, t).ret == NO_ERROR ==> mx == mutexes[u].(holder := Some(t))
    requires Look(m, t).ret != NO_ERROR ==> mx == mutexes[u].(count := mutexes[u].count - 1)
    ensures MutexOk(m, inWait - {t}, mutexes[u := mx])
  {
    hide Acquirers, Look;
    var inWait' := inWait - {t};
    forall v
      ensures |Acquirers(inWait', v)| == |Acquirers(inWait, v)| - if v == u then 1 else 0
    {
      LeaveAcquirers(inWait, t, v);
    }
    assert forall x, v :: Handed(m, inWait', v, x) ==> Handed(m, inWait, v, x);
    assert Look(m, t).ret == NO_ERROR ==> Handed(m, inWait, u, t);
  }

  lemma LeaveEvent(m: Threads, inWait: InWait, mutexes: Mutexes, t: Tid)
    requires MutexOk(m, inWait, mutexes) && t in inWait && inWait[t].w.OfEvent?
    ensures MutexOk(m, inWait - {t}, mutexes)
  {
    var inWait' := inWait - {t};
    assert forall v :: Acquirers(inWait', v) == Acquirers(inWait, v);
    assert forall x, v :: Handed(m, inWait', v, x) ==> Handed(m, inWait, v, x);
  }

  lemma FinishOk(k: Kernel)
    requires KInv(k) && k.s.current in k.inWait
    ensures KInv(Finish(k))
  {
    var t := k.s.current;
    CurrentFacts(k);
    LeaveCalls(k.s.threads, k.inWait, t);
    LeaveTimers(k.s.threads, k.inWait, k.timers, t);
    match k.inWait[t].w
    case OfEvent(_) => LeaveEvent(k.s.threads, k.inWait, k.mutexes, t);
    case OfMutex(u) =>
      LeaveMutex(k.s.threads, k.inWait, k.mutexes, t, u, Finish(k).mutexes[u]);
  }

  // ---------- deferred calls and exit ----------

  lemma AppendDpc(m: Threads, events: Events, dpcs: seq<Dpc>, pc: DpcPc, d: Dpc)
    requires DpcOk(m, events, dpcs, pc) && events[DPC_EVENT].signalled
    requires d.Cleanup? ==> d.t in m && Look(m, d.t).kind == Gone && d.t !in Cleanups(InHand(pc) + dpcs)
    ensures DpcOk(m, events, dpcs + [d], pc)
  {
    CleanupsConcat(InHand(pc) + dpcs, [d]);
    assert InHand(pc) + (dpcs + [d]) == InHand(pc) + dpcs + [d];
    assert Cleanups([d]) == if d.Cleanup? then [d.t] else [];
  }

  /** Queueing work behaves as if the event were signalled first. */
  lemma PostOk(k: Kernel, d: Dpc, resched: bool)
    requires KInv(k)
    requires d.Cleanup? ==> d.t in k.s.threads && Look(k.s.threads, d.t).kind == Gone
                            && d.t !in Cleanups(InHand(k.dpcPc) + k.dpcs)
    ensures KInv(PostDpc(k, d, resched))
  {
    var k1 := SignalEvent(k, DPC_EVENT, resched);
    SignalOk(k, DPC_EVENT, resched);
    assert PostDpc(k, d, resched) == k1.(dpcs := k.dpcs + [d]);
    if d.Cleanup? {
      SignalKeepsGone(k, DPC_EVENT, resched, d.t);
    }
    AppendDpc(k1.s.threads, k1.events, k1.dpcs, k1.dpcPc, d);
  }

  lemma SignalKeepsGone(k: Kernel, e: nat, resched: bool, t: Tid)
    requires KInv(k) && !EventOf(k, e).auto && Look(k.s.threads, t).kind == Gone && t in k.s.threads
    ensures Look(SignalEvent(k, e, resched).s.threads, t).kind == Gone
    ensures t in SignalEvent(k, e, resched).s.threads
  {
    hide Inv, WaitsOk, WakeAll;
    InvWaits(k.s);
    WakeAllLook(k.s, OfEvent(e), resched, NO_ERROR);
    WakeAllKeeps(k.s, OfEvent(e), resched, NO_ERROR);
    if t in Waiting(k.s, OfEvent(e)) {
      ParkedFacts(k, OfEvent(e), t);
    }
  }

  lemma TakeOk(k: Kernel)
    requires KInv(k) && k.dpcPc == AtTake
    ensures KInv(TakeDpc(k))
  {
    if k.dpcs == [] {
    } else {
      assert InHand(Holding(k.dpcs[0])) + k.dpcs[1..] == k.dpcs;
      assert InHand(k.dpcPc) + k.dpcs == k.dpcs;
    }
  }

  /** Dying: the thread leaves the cpu, then its cleanup is queued and the deferred-call thread woken. */
  lemma ExitOk(k: Kernel)
    requires KInv(k) && k.s.current != BOOT && k.s.current !in k.inWait
    ensures KInv(ExitThread(k))
  {
    var t := k.s.current;
    var k1 := k.(s := SetState(k.s, t, Death));
    ExitStart(k);
    ExitSignal(k1);
    var k2 := SignalEvent(k1, DPC_EVENT, false);
    assert PostDpc(k1, Cleanup(t), false) == k2.(dpcs := k.dpcs + [Cleanup(t)]);
    var k3 := k2.(dpcs := k.dpcs + [Cleanup(t)]);
    hide Switchable, Inv, Resched, DpcOk, SignalEvent;
    AppendDpc(k2.s.threads, k2.events, k2.dpcs, k2.dpcPc, Cleanup(t));
    ExitSwitch(k3);
  }

  lemma ExitStart(k: Kernel)
    requires KInv(k) && k.s.current != BOOT && k.s.current !in k.inWait
    ensures var s1 := SetState(k.s, k.s.current, Death);
            Switchable(s1) && Rest(k.(s := s1)) && Look(s1.threads, k.s.current).kind == Gone
    ensures k.s.current !in Cleanups(InHand(k.dpcPc) + k.dpcs)
  {
    var t := k.s.current;
    var s1 := SetState(k.s, t, Death);
    RetiredOk(k.s, Death);
    CurrentFacts(k);
    hide Wf;
    PutLook(k.s.threads, t, Get(s1.threads, t));
    QuietFrame(k, s1, {t});
  }

  lemma ExitSignal(k: Kernel)
    requires Switchable(k.s) && Rest(k)
    ensures var k' := SignalEvent(k, DPC_EVENT, false);
            && Switchable(k'.s) && Rest(k') && k'.events[DPC_EVENT].signalled && k'.dpcs == k.dpcs && k'.dpcPc == k.dpcPc
            && Keeps(k.s.threads, k'.s.threads)
            && forall t :: Look(k.s.threads, t).kind == Gone ==> Look(k'.s.threads, t).kind == Gone
  {
    var w := OfEvent(DPC_EVENT);
    var k' := SignalEvent(k, DPC_EVENT, false);
    if !k.events[DPC_EVENT].signalled {
      DrainSwitchable(k.s, w);
      hide Switchable, RunOk, WaitsOk, ThreadsOk;
      DrainLook(k.s, w, NO_ERROR);
      DrainKeeps(k.s, w, NO_ERROR);
      forall t | t in Waiting(k.s, w)
        ensures Look(k.s.threads, t).kind == Parked
      {
        ParkedFacts(k, w, t);
      }
      DpcEventFrame(k.s.threads, k.events, k'.events, k.dpcs, k.dpcPc);
      WokenEventRest(k, k'.s, k'.events, DPC_EVENT, Waiting(k.s, w), NO_ERROR);
    }
  }

  lemma DrainSwitchable(s: Sched, w: WaitQueueId)
    requires Switchable(s)
    ensures Switchable(Drain(s, w, NO_ERROR))
    ensures Wf(s, {}) && WaitsOk(s.threads, s.waits, {})
  {
    hide RunOk, WaitsOk, ThreadsOk;
    DrainOk(s, w, NO_ERROR);
    assert Get(s.threads, BOOT).state == Ready;
  }

  lemma ExitSwitch(k: Kernel)
    requires Switchable(k.s) && Rest(k)
    ensures KInv(k.(s := Resched(k.s)))
  {
    ReschedOk(k.s);
    ReschedLook(k.s);
    hide Wf;
    QuietFrame(k, Resched(k.s), {});
  }

  /** Only the thread struct of a dead thread is freed. */
  lemma CallOk(k: Kernel)
    requires KInv(k) && k.dpcPc.Holding?
    ensures KInv(CallDpc(k))
  {
    var d := k.dpcPc.d;
    assert InHand(k.dpcPc) + k.dpcs == [d] + k.dpcs;
    assert ([d] + k.dpcs)[1..] == k.dpcs;
    assert InHand(InCallback) + k.dpcs == k.dpcs;
    if d.Cleanup? {
      var m := k.s.threads;
      assert Cleanups([d] + k.dpcs) == [d.t] + Cleanups(k.dpcs);
      assert d.t in Cleanups([d] + k.dpcs);
      FreeThread(k.s, d.t);
      FreeRest(k, d.t);
    } else {
      assert Cleanups([d] + k.dpcs) == Cleanups(k.dpcs);
    }
  }

  lemma FreeThread(s: Sched, t: Tid)
    requires Inv(s) && Look(s.threads, t).kind == Gone
    ensures Inv(s.(threads := s.threads - {t}))
  {
    assert forall u :: u != t ==> Get(s.threads - {t}, u) == Get(s.threads, u);
    assert Get(s.threads - {t}, t) == DEAD;
    assert Get(s.threads, t).state == Death;
    hide Get, Distinct;
  }

  lemma FreeRest(k: Kernel, t: Tid)
    requires Rest(k) && Look(k.s.threads, t).kind == Gone
    requires Distinct([t] + Cleanups(k.dpcs)) && k.dpcPc.Holding? && k.dpcPc.d == Cleanup(t)
    requires forall u :: u in Cleanups(k.dpcs) ==> u in k.s.threads && Look(k.s.threads, u).kind == Gone
    ensures Rest(k.(s := k.s.(threads := k.s.threads - {t}), dpcPc := InCallback))
  {
    var m, m' := k.s.threads, k.s.threads - {t};
    assert forall u :: u != t ==> Get(m', u) == Get(m, u);
    assert Get(m', t) == DEAD;
    CallsFrame(m, m', k.inWait, {t});
    TimersFrame(m, m', k.inWait, k.timers, {t});
    MutexFrame(m, m', k.inWait, k.mutexes, {t});
    assert InHand(InCallback) + k.dpcs == k.dpcs;
    Basics.PopFacts([t] + Cleanups(k.dpcs));
    assert ([t] + Cleanups(k.dpcs))[1..] == Cleanups(k.dpcs);
  }

  // ---------- the remaining steps ----------

  lemma YieldStepOk(k: Kernel)
    requires KInv(k)
    ensures KInv(k.(s := Scheduler.Yield(k.s)))
  {
    YieldOk(k.s);
    YieldLook(k.s);
    hide Wf;
    QuietFrame(k, Scheduler.Yield(k.s), {});
  }

  lemma CreateStepOk(k: Kernel, t: Tid, p: Priority)
    requires KInv(k) && t !in k.s.threads
    ensures KInv(k.(s := Scheduler.Create(k.s, t, p)))
  {
    CreateOk(k.s, t, p);
    PutLook(k.s.threads, t, Thread(p, Suspended, 0, None, NO_ERROR));
    assert Look(k.s.threads, t).kind == Gone;
    hide Wf;
    QuietFrame(k, Scheduler.Create(k.s, t, p), {t});
  }

  lemma ResumeKeeps(s: Sched, t: Tid)
    ensures Keeps(s.threads, ResumeThread(s, t).threads)
  {
  }

  lemma ResumeStepOk(k: Kernel, t: Tid)
    requires KInv(k) && At(k.s, t).state in {Suspended, Ready, Running}
    ensures KInv(k.(s := ResumeThread(k.s, t)))
  {
    ResumeThreadOk(k.s, t);
    ResumeLook(k.s, t);
    ResumeKeeps(k.s, t);
    hide Wf;
    if At(k.s, t).state == Suspended {
      assert Look(k.s.threads, t).kind == Fresh;
      QuietFrame(k, ResumeThread(k.s, t), {t});
    }
  }

  lemma SetPriorityStepOk(k: Kernel, p: int)
    requires KInv(k)
    ensures KInv(k.(s := Scheduler.SetPriority(k.s, p)))
  {
    SetPriorityOk(k.s, p);
    hide Wf;
    RunningUpdateLook(k.s, At(Scheduler.SetPriority(k.s, p), k.s.current));
    QuietFrame(k, Scheduler.SetPriority(k.s, p), {});
  }

  lemma BecomeIdleStepOk(k: Kernel)
    requires KInv(k) && k.s.current == BOOT
    ensures KInv(k.(s := Scheduler.BecomeIdle(k.s)))
  {
    BecomeIdleOk(k.s);
    hide Wf;
    RunningUpdateLook(k.s, At(Scheduler.BecomeIdle(k.s), k.s.current));
    QuietFrame(k, Scheduler.BecomeIdle(k.s), {});
  }

  lemma SleepTimers(m: Threads, m': Threads, inWait: InWait, timers: Timers, t: Tid, due: int)
    requires TimersOk(m, inWait, timers) && Same(m, m', {t}) && t !in inWait
    requires Look(m, t).kind != Asleep && Look(m', t).kind == Asleep
    ensures TimersOk(m', inWait, Insert(timers, Entry(due, SleepWake(t))))
  {
    InsertFacts(timers, Entry(due, SleepWake(t)));
  }

  lemma SleepStepOk(k: Kernel, due: int)
    requires KInv(k) && k.s.current != BOOT && k.s.current !in k.inWait
    ensures KInv(k.(s := Retire(k.s, Sleeping), timers := Insert(k.timers, Entry(due, SleepWake(k.s.current)))))
  {
    var t, s' := k.s.current, Retire(k.s, Sleeping);
    RetireOk(k.s, Sleeping);
    RetireLook(k.s, Sleeping);
    CurrentFacts(k);
    hide Wf, Retire;
    assert Keeps(k.s.threads, s'.threads) by { RetireKeeps(k.s, Sleeping); }
    assert s'.waits == k.s.waits;
    CallsFrame(k.s.threads, s'.threads, k.inWait, {t});
    SleepTimers(k.s.threads, s'.threads, k.inWait, k.timers, t, due);
    MutexFrame(k.s.threads, s'.threads, k.inWait, k.mutexes, {t});
    DpcFrame(k.s.threads, s'.threads, k.events, k.dpcs, k.dpcPc, {t});
  }

  lemma RetireKeeps(s: Sched, st: ThreadState)
    ensures Keeps(s.threads, Retire(s, st).threads)
  {
  }

  lemma NewMutex(m: Threads, inWait: InWait, mutexes: Mutexes, u: nat)
    requires MutexOk(m, inWait, mutexes) && u !in mutexes
    ensures MutexOk(m, inWait, mutexes[u := Mutex(0, None)])
  {
    assert Acquirers(inWait, u) == {};
    hide Look, Acquirers;
  }

  lemma MutexInitOk(k: Kernel, u: nat)
    requires KInv(k) && u !in k.mutexes
    ensures KInv(k.(mutexes := k.mutexes[u := Mutex(0, None)]))
  {
    hide Inv, CallsOk, TimersOk, DpcOk, MutexOk;
    NewMutex(k.s.threads, k.inWait, k.mutexes, u);
  }

  lemma EventStepOk(k: Kernel, e: nat, ev: Event)
    requires KInv(k) && e != DPC_EVENT
    requires e in k.events ==> !ev.signalled
    requires e !in k.events ==> Waiting(k.s, OfEvent(e)) == []
    ensures KInv(k.(events := k.events[e := ev]))
  {
    hide Inv, Look;
  }

  lemma AcquireOk(k: Kernel, u: nat, now: int, timeout: Option<nat>)
    requires KInv(k) && u in k.mutexes && k.s.current !in k.inWait
    requires Blocks(k, Acquire(u, now, timeout)) ==> k.s.current != BOOT
    ensures KInv(AcquireMutex(k, u, now, timeout))
  {
    hide Inv, Rest, BlockOn;
    if k.mutexes[u].count >= 1 {
      if timeout != Some(0) {
        BlockOnOk(k, OfMutex(u), now, timeout);
      }
    } else {
      TakeFreeOk(k, u);
    }
  }

  lemma TakeFreeOk(k: Kernel, u: nat)
    requires KInv(k) && u in k.mutexes && k.mutexes[u].count < 1
    ensures KInv(k.(mutexes := k.mutexes[u := Mutex(k.mutexes[u].count + 1, Some(k.s.current))]))
  {
    hide Inv, CallsOk, TimersOk, DpcOk, MutexOk;
    TakeFree(k.s.threads, k.inWait, k.mutexes, u, k.s.current);
  }

  lemma TakeFree(m: Threads, inWait: InWait, mutexes: Mutexes, u: nat, t: Tid)
    requires MutexOk(m, inWait, mutexes) && u in mutexes && mutexes[u].count < 1
    ensures MutexOk(m, inWait, mutexes[u := Mutex(mutexes[u].count + 1, Some(t))])
  {
    assert Acquirers(inWait, u) == {};
    forall x
      ensures !Handed(m, inWait, u, x)
    {
      assert x !in Acquirers(inWait, u);
    }
    hide Look;
  }

  lemma WaitEventOk(k: Kernel, e: nat, now: int, timeout: Option<nat>)
    requires KInv(k) && e in k.events && k.s.current !in k.inWait
    requires !k.events[e].signalled && timeout != Some(0) ==> k.s.current != BOOT
    requires e == DPC_EVENT ==> !k.events[e].auto
    ensures KInv(WaitEvent(k, e, now, timeout))
  {
    if k.events[e].signalled {
      if k.events[e].auto {
        EventStepOk(k, e, k.events[e].(signalled := false));
      }
    } else if timeout != Some(0) {
      hide Inv;
      assert k.(mutexes := Counted(k, OfEvent(e))) == k;
      BlockOnOk(k, OfEvent(e), now, timeout);
    }
  }

  lemma PcOk(k: Kernel, pc: DpcPc)
    requires KInv(k) && InHand(pc) == InHand(k.dpcPc)
    ensures KInv(k.(dpcPc := pc))
  {
    hide Inv;
  }

  /** Steps on threads and time. */
  predicate IsThreadStep(st: Step) {
    || st.Create? || st.Resume? || st.Exit? || st.Yield? || st.Sleep? || st.SetPriority? || st.BecomeIdle?
    || st.Preempt? || st.Tick? || st.Return?
  }

  lemma ThreadStepKeepsInv(k: Kernel, st: Step)
    requires KInv(k) && Enabled(k, st) && IsThreadStep(st)
    ensures KInv(Apply(k, st))
  {
    hide Inv, Rest, Scheduler.Create, ResumeThread, ExitThread, Scheduler.Yield, Retire, Insert, Scheduler.SetPriority,
      Scheduler.BecomeIdle, Finish, Scheduler.Preempt, TickTimers;
    match st
    case Create(t, p) => CreateStepOk(k, t, p);
    case Resume(t) => ResumeStepOk(k, t);
    case Exit => ExitOk(k);
    case Yield => YieldStepOk(k);
    case Sleep(now, delay) => SleepStepOk(k, now + delay);
    case SetPriority(p) => SetPriorityStepOk(k, p);
    case BecomeIdle => BecomeIdleStepOk(k);
    case Return => FinishOk(k);
    case Preempt => PreemptStepOk(k);
    case Tick(now) => TickOk(k, now);
  }

  lemma ObjectStepKeepsInv(k: Kernel, st: Step)
    requires KInv(k) && Enabled(k, st) && !IsThreadStep(st)
    ensures KInv(Apply(k, st))
  {
    hide Inv, Rest;
    match st
    case MutexInit(u) =>
      MutexInitOk(k, u);
      NoMutex(k, u);
      InitQueueOk(k.(mutexes := k.mutexes[u := Mutex(0, None)]), OfMutex(u));
    case Acquire(u, now, timeout) => AcquireOk(k, u, now, timeout);
    case Release(u) => ReleaseOk(k, u);
    case EventInit(e, initial, auto) =>
      NoEvent(k, e);
      EventStepOk(k, e, Event(initial, auto));
      InitQueueOk(k.(events := k.events[e := Event(initial, auto)]), OfEvent(e));
    case EventWait(e, now, timeout) => WaitEventOk(k, e, now, timeout);
    case Signal(e, resched) => SignalOk(k, e, resched);
    case Unsignal(e) => EventStepOk(k, e, k.events[e].(signalled := false));
    case EventDestroy(e) => DestroyOk(k, e);
    case QueueDpc(d, resched) => PostOk(k, d, resched);
    case DpcWait =>
      DpcEventFacts(k);
      PcOk(k, AtTake);
      WaitEventOk(k.(dpcPc := AtTake), DPC_EVENT, 0, None);
    case DpcTake => TakeOk(k);
    case DpcCall => CallOk(k);
    case DpcReturn => PcOk(k, AtWait);
  }

  /** Main theorem: every enabled step keeps the invariant of the whole kernel. */
  lemma StepKeepsInv(k: Kernel, st: Step)
    requires KInv(k) && Enabled(k, st)
    ensures KInv(Apply(k, st))
  {
    hide KInv, Enabled, Apply;
    if IsThreadStep(st) {
      ThreadStepKeepsInv(k, st);
    } else {
      ObjectStepKeepsInv(k, st);
    }
  }

  lemma NoMutex(k: Kernel, u: nat)
    requires KInv(k) && u !in k.mutexes
    ensures Waiting(k.s, OfMutex(u)) == []
  {
  }

  /** Initialising the queue of an object nobody waits on changes no queue. */
  lemma InitQueueOk(k: Kernel, w: WaitQueueId)
    requires KInv(k) && Waiting(k.s, w) == []
    ensures KInv(InitQueue(k, w))
  {
    var waits' := k.s.waits[w := []];
    assert forall v :: Queue(waits', v) == Queue(k.s.waits, v);
    InitQueueWaits(k.s.threads, k.s.waits, waits');
    hide RunOk, WaitsOk, ThreadsOk, CallsOk, TimersOk, MutexOk, DpcOk;
  }

  lemma InitQueueWaits(m: Threads, waits: Scheduler.Waits, waits': Scheduler.Waits)
    requires WaitsOk(m, waits, {}) && forall v :: Queue(waits', v) == Queue(waits, v)
    ensures WaitsOk(m, waits', {})
  {
  }

  lemma NoEvent(k: Kernel, e: nat)
    requires KInv(k) && e !in k.events
    ensures e != DPC_EVENT && Waiting(k.s, OfEvent(e)) == []
  {
  }

  lemma DpcEventFacts(k: Kernel)
    requires KInv(k)
    ensures DPC_EVENT in k.events && !k.events[DPC_EVENT].auto
  {
  }

  /** Hence over every legal run from start-up: the invariant holds in every reachable state. */
  lemma {:induction false} RunKeepsInv(run: seq<Step>)
    requires Legal(Init(), run)
    ensures KInv(After(Init(), run))
  {
    if run == [] {
      InitOk();
    } else {
      RunKeepsInv(run[..|run| - 1]);
      StepKeepsInv(After(Init(), run[..|run| - 1]), run[|run| - 1]);
    }
  }

  /** In every reachable state exactly the current thread is running, the ready threads are on the
      run queues of their priorities, the blocked ones on the lists of their wait queues, each once,
      all others on no queue, and the bootstrap thread, later the idle thread, is runnable. */
  lemma ReachableQueues(run: seq<Step>, t: Tid)
    requires Legal(Init(), run)
    ensures var s := After(Init(), run).s;
            && (At(s, t).state == Running <==> t == s.current)
            && (forall p :: 0 <= p < 32 ==> (t in s.run[p] <==> At(s, t).state == Ready && At(s, t).priority == p))
            && (forall w :: t in Waiting(s, w) <==> At(s, t).state == Blocked && At(s, t).blockedOn == Some(w))
            && (forall p :: 0 <= p < 32 ==> Distinct(s.run[p])) && (forall w :: Distinct(Waiting(s, w)))
            && At(s, BOOT).state in {Ready, Running} && (s.idle.Some? ==> s.idle.value == BOOT)
  {
    RunKeepsInv(run);
    QueuesFollowState(After(Init(), run).s, t);
    hide After, Init, Legal, Rest;
  }
}
