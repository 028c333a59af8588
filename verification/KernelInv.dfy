/**
 The invariant of the whole kernel, and its preservation by every step of KernelModel.
 The five parts below speak of threads only through their views, so a step that changes no
 view keeps them at once.
 */
module KernelInv {
  import opened Basics
  import opened Scheduler
  import opened SchedulerInv
  import opened SchedulerEffects
  import opened TimerQueue
  import opened KernelModel

  /** A thread is blocked only inside wait_queue_block, and on the queue that call named. */
  ghost predicate CallsOk(m: Threads, inWait: InWait) {
    && (forall t {:trigger Look(m, t)} :: Look(m, t).kind == Parked ==> t in inWait && Look(m, t).on == Some(inWait[t].w))
    && (forall t :: t in inWait ==> Look(m, t).kind in {Parked, Active})
  }

  /** Wait queues belong to live objects, and a signalled event has no waiter. */
  ghost predicate ObjectsOk(waits: Scheduler.Waits, mutexes: Mutexes, events: Events) {
    && (forall u :: Queue(waits, OfMutex(u)) != [] ==> u in mutexes)
    && (forall e :: Queue(waits, OfEvent(e)) != [] ==> e in events && !events[e].signalled)
  }

  /** A sleeper always has its timer, a timed waiter that is still queued too, and no other timer exists. */
  ghost predicate TimersOk(m: Threads, inWait: InWait, timers: Timers) {
    && Sorted(timers) && Unique(timers)
    && (forall t {:trigger Look(m, t)} :: Look(m, t).kind == Asleep <==> Has(timers, SleepWake(t)))
    && (forall t :: Has(timers, WaitTimeout(t)) ==> t in inWait && inWait[t].timed)
    && (forall t :: t in inWait && inWait[t].timed && Look(m, t).kind == Parked ==> Has(timers, WaitTimeout(t)))
  }

  /** The threads inside an acquire of u that has not returned. */
  function Acquirers(inWait: InWait, u: nat): set<Tid> {
    set t | t in inWait && inWait[t].w == OfMutex(u)
  }

  /** Woken as the next owner, but not yet running. */
  ghost predicate Handed(m: Threads, inWait: InWait, u: nat, t: Tid) {
    t in inWait && inWait[t].w == OfMutex(u) && Look(m, t).kind == Active && Look(m, t).ret == NO_ERROR
  }

  /** At most one owner, recorded or handed the mutex, and count is exactly the owner plus
      everyone inside an acquire. */
  ghost predicate MutexOk(m: Threads, inWait: InWait, mutexes: Mutexes) {
    && (forall u :: u in mutexes ==>
          mutexes[u].count == |Acquirers(inWait, u)| + if mutexes[u].holder.Some? then 1 else 0)
    && (forall t, u :: t in inWait && inWait[t].w == OfMutex(u) ==> u in mutexes)
    && (forall t, u :: Handed(m, inWait, u, t) ==> u in mutexes && mutexes[u].holder == None)
    && (forall t, t', u :: Handed(m, inWait, u, t) && Handed(m, inWait, u, t') ==> t == t')
    && (forall t {:trigger Look(m, t)} :: t in inWait && inWait[t].w.OfMutex? && Look(m, t).kind == Active ==>
          Look(m, t).ret == NO_ERROR || (Look(m, t).ret == ERR_TIMED_OUT && inWait[t].timed))
  }

  function InHand(pc: DpcPc): seq<Dpc> {
    if pc.Holding? then [pc.d] else []
  }

  /** No lost wakeup: work in the list means the event is signalled. A thread waiting for its
      cleanup is dead, still allocated, and waits for it once. */
  ghost predicate DpcOk(m: Threads, events: Events, dpcs: seq<Dpc>, pc: DpcPc) {
    && DPC_EVENT in events && !events[DPC_EVENT].auto
    && (dpcs != [] ==> events[DPC_EVENT].signalled)
    && Distinct(Cleanups(InHand(pc) + dpcs))
    && (forall t :: t in Cleanups(InHand(pc) + dpcs) ==> t in m && Look(m, t).kind == Gone)
  }

  function Cleanups(ds: seq<Dpc>): seq<Tid> {
    if ds == [] then [] else (if ds[0].Cleanup? then [ds[0].t] else []) + Cleanups(ds[1..])
  }

  /** The parts of the invariant that see threads only through their views. */
  ghost predicate Rest(k: Kernel) {
    && CallsOk(k.s.threads, k.inWait)
    && ObjectsOk(k.s.waits, k.mutexes, k.events)
    && TimersOk(k.s.threads, k.inWait, k.timers)
    && MutexOk(k.s.threads, k.inWait, k.mutexes)
    && DpcOk(k.s.threads, k.events, k.dpcs, k.dpcPc)
  }

  ghost predicate KInv(k: Kernel) {
    Inv(k.s) && Rest(k)
  }

  lemma InitOk()
    ensures KInv(Init())
    ensures var k := Init();
            && k.s.current == BOOT && At(k.s, BOOT) == Thread(HIGHEST_PRIORITY, Running, 0, None, NO_ERROR) && k.s.idle == None
            && k.s.threads.Keys == {BOOT} && k.mutexes == map[] && k.events.Keys == {DPC_EVENT} && !k.events[DPC_EVENT].signalled
            && k.timers == [] && k.dpcs == [] && k.inWait == map[]
  {
    InitInv();
    InitRest();
  }

  lemma InitInv()
    ensures Inv(Init().s)
  {
    hide Distinct;
    var s := Init().s;
    assert forall t :: Get(s.threads, t).state == if t == BOOT then Running else Death;
    assert forall w :: Queue(s.waits, w) == [];
    EmptyDistinct();
  }

  lemma EmptyDistinct()
    ensures Distinct<Tid>([])
  {
  }

  lemma InitRest()
    ensures Rest(Init())
  {
    var k := Init();
    EmptyParts(k.s.threads, k.s.waits);
    assert InHand(AtWait) + [] == [];
  }

  lemma EmptyParts(m: Threads, waits: Scheduler.Waits)
    requires m == map[BOOT := Thread(31, Running, 0, None, NO_ERROR)] && waits == map[OfEvent(DPC_EVENT) := []]
    ensures CallsOk(m, map[]) && TimersOk(m, map[], []) && MutexOk(m, map[], map[])
    ensures ObjectsOk(waits, map[], map[DPC_EVENT := Event(false, false)])
  {
    assert forall t {:trigger Look(m, t)} :: Look(m, t).kind == if t == BOOT then Active else Gone;
    assert forall w :: Queue(waits, w) == [];
    hide Look;
    assert forall u, t :: !Handed(m, map[], u, t);
  }

  // ---------- frames ----------

  lemma {:induction false} CleanupsConcat(a: seq<Dpc>, b: seq<Dpc>)
    ensures Cleanups(a + b) == Cleanups(a) + Cleanups(b)
  {
    if a == [] {
      assert a + b == b;
    } else {
      assert (a + b)[0] == a[0] && (a + b)[1..] == a[1..] + b;
      CleanupsConcat(a[1..], b);
    }
  }

  /** No allocated thread disappears. */
  ghost predicate Keeps(m: Threads, m': Threads) {
    m.Keys <= m'.Keys
  }

  lemma CallsFrame(m: Threads, m': Threads, inWait: InWait, x: set<Tid>)
    requires CallsOk(m, inWait) && Same(m, m', x)
    requires forall t :: t in x ==> t !in inWait && Look(m', t).kind != Parked
    ensures CallsOk(m', inWait)
  {
  }

  lemma TimersFrame(m: Threads, m': Threads, inWait: InWait, timers: Timers, x: set<Tid>)
    requires TimersOk(m, inWait, timers) && Same(m, m', x)
    requires forall t :: t in x ==> t !in inWait && Look(m, t).kind != Asleep && Look(m', t).kind != Asleep
    ensures TimersOk(m', inWait, timers)
  {
  }

  lemma MutexFrame(m: Threads, m': Threads, inWait: InWait, mutexes: Mutexes, x: set<Tid>)
    requires MutexOk(m, inWait, mutexes) && Same(m, m', x)
    requires forall t :: t in x ==> t !in inWait
    ensures MutexOk(m', inWait, mutexes)
  {
    assert forall t, u :: Handed(m', inWait, u, t) ==> Handed(m, inWait, u, t);
  }

  lemma DpcFrame(m: Threads, m': Threads, events: Events, dpcs: seq<Dpc>, pc: DpcPc, x: set<Tid>)
    requires DpcOk(m, events, dpcs, pc) && Same(m, m', x) && Keeps(m, m')
    requires forall t :: t in x ==> t !in Cleanups(InHand(pc) + dpcs)
    ensures DpcOk(m', events, dpcs, pc)
  {
  }

  /** Changing only the views of threads that are in no wait and, before and after, not asleep. */
  lemma QuietFrame(k: Kernel, s': Sched, x: set<Tid>)
    requires Rest(k) && Quiet(k.s, s', x) && Keeps(k.s.threads, s'.threads)
    requires forall t :: t in x ==>
               && t !in k.inWait && t !in Cleanups(InHand(k.dpcPc) + k.dpcs)
               && Look(k.s.threads, t).kind != Asleep && Look(s'.threads, t).kind !in {Parked, Asleep}
    ensures Rest(k.(s := s'))
  {
    var m, m' := k.s.threads, s'.threads;
    CallsFrame(m, m', k.inWait, x);
    TimersFrame(m, m', k.inWait, k.timers, x);
    MutexFrame(m, m', k.inWait, k.mutexes, x);
    DpcFrame(m, m', k.events, k.dpcs, k.dpcPc, x);
  }

  /** The current thread is in no queue and owes nothing to timers or deferred calls. */
  lemma CurrentFacts(k: Kernel)
    requires KInv(k)
    ensures Look(k.s.threads, k.s.current).kind == Active
    ensures !Has(k.timers, SleepWake(k.s.current))
    ensures k.s.current !in Cleanups(InHand(k.dpcPc) + k.dpcs)
  {
  }

  lemma ParkedFacts(k: Kernel, w: WaitQueueId, t: Tid)
    requires Rest(k) && WaitsOk(k.s.threads, k.s.waits, {}) && t in Waiting(k.s, w)
    ensures Look(k.s.threads, t).kind == Parked && Look(k.s.threads, t).on == Some(w)
    ensures t in k.inWait && k.inWait[t].w == w
  {
  }
}
