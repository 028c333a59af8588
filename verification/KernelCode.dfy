/**
 The kernel's globals and the code that updates them in place: run-queue bitmap and
 count-leading-zeros choice, wait-queue counts, queue-draining and timer loops. Every method is
 proved to move the abstract state as the transition functions of Scheduler and KernelModel do.
 */
module KernelCode {
  import opened Basics
  import opened Bits
  import opened Scheduler
  import opened SchedulerInv
  import opened TimerQueue
  import opened KernelModel
  import opened KernelInv
  import KernelSteps

  /** struct wait_queue. */
  datatype WaitQueue = WaitQueue(list: seq<Tid>, count: int)

  function Lists(m: map<WaitQueueId, WaitQueue>): Scheduler.Waits {
    map w | w in m :: m[w].list
  }

  lemma ListsUpdate(m: map<WaitQueueId, WaitQueue>, w: WaitQueueId, q: WaitQueue)
    ensures Lists(m[w := q]) == Lists(m)[w := q.list]
    ensures w in m ==> Queue(Lists(m), w) == m[w].list
  {
  }

  /** Bit p of the bitmap says whether run queue p is nonempty. */
  ghost predicate BitmapOk(bitmap: nat, run: RunQueues) {
    && bitmap < Pow2(32)
    && (forall p :: 0 <= p < 32 ==> (Bit(bitmap, p) <==> run[p] != []))
  }

  ghost predicate CountsOk(m: map<WaitQueueId, WaitQueue>) {
    forall w :: w in m ==> m[w].count == |m[w].list|
  }

  /** The choice by count-leading-zeros is the choice of the scan from the highest priority down. */
  lemma ClzIsScan(bitmap: nat, run: RunQueues)
    requires BitmapOk(bitmap, run)
    ensures bitmap != 0 <==> 0 <= Top(run, 31)
    ensures bitmap != 0 ==> HIGHEST_PRIORITY - Clz32(bitmap) - (32 - NUM_PRIORITIES) == Top(run, 31)
  {
    if bitmap == 0 {
      forall p | 0 <= p < 32
        ensures run[p] == []
      {
        ZeroBits(p);
      }
    } else {
      var n := BitLen(bitmap);
      BitLenBound(bitmap, 32);
      BitLenTop(bitmap, 0);
      assert Bit(bitmap, n - 1);
      forall p | n <= p < 32
        ensures run[p] == []
      {
        BitLenTop(bitmap, p);
      }
    }
  }

  /** Setting bit p when queue p gets a thread. */
  lemma SetBit(bitmap: nat, run: RunQueues, p: Priority, q: seq<Tid>)
    requires BitmapOk(bitmap, run) && q != []
    ensures BitmapOk(Or(bitmap, Pow2(p)), run[p := q]) && Or(bitmap, Pow2(p)) != 0
  {
    OrBit(bitmap, Pow2(p), p);
    Pow2Bit(p, p);
    ZeroBits(p);
    Pow2Monotone(p + 1, 32);
    OrBound(bitmap, Pow2(p), 32);
    forall i | 0 <= i < 32
      ensures Bit(Or(bitmap, Pow2(p)), i) <==> run[p := q][i] != []
    {
      OrBit(bitmap, Pow2(p), i);
      Pow2Bit(p, i);
    }
  }

  /** Clearing bit p when queue p ran empty. */
  lemma ClearBit(bitmap: nat, run: RunQueues, p: Priority)
    requires BitmapOk(bitmap, run) && Pow2(p) < Pow2(32)
    ensures BitmapOk(And(bitmap, Not(Pow2(p), 32)), run[p := []])
  {
    var mask := Not(Pow2(p), 32);
    AndBound(bitmap, mask);
    forall i | 0 <= i < 32
      ensures Bit(And(bitmap, mask), i) <==> run[p := []][i] != []
    {
      AndBit(bitmap, mask, i);
      NotBit(Pow2(p), 32, i);
      Pow2Bit(p, i);
    }
  }

  lemma StillSet(bitmap: nat, run: RunQueues, p: Priority, q: seq<Tid>)
    requires BitmapOk(bitmap, run) && run[p] != [] && q != []
    ensures BitmapOk(bitmap, run[p := q])
  {
  }

  // ---------- the steps of the state machine, one by one ----------

  lemma YieldIs(k: Kernel)
    ensures Apply(k, KernelModel.Step.Yield) == k.(s := Scheduler.Yield(k.s))
  {
    hide Scheduler.Yield;
  }

  lemma PreemptIs(k: Kernel)
    ensures Apply(k, KernelModel.Step.Preempt) == k.(s := Scheduler.Preempt(k.s))
  {
    hide Scheduler.Preempt;
  }

  lemma ReturnIs(k: Kernel)
    ensures Apply(k, Return) == Finish(k)
  {
    hide Finish;
  }

  lemma ReleaseIs(k: Kernel, u: nat)
    ensures Apply(k, Release(u)) == ReleaseMutex(k, u)
  {
    hide ReleaseMutex;
  }

  lemma ResumeIs(k: Kernel, t: Tid)
    ensures Apply(k, Resume(t)) == k.(s := ResumeThread(k.s, t))
  {
    hide ResumeThread;
  }

  lemma OneBitFits(p: Priority)
    ensures Pow2(p) < Pow2(32)
  {
    Pow2Monotone(p + 1, 32);
  }

  /** Somebody else is ready whenever a thread other than the bootstrap thread gives up the cpu. */
  lemma SomeoneReady(bitmap: nat, s: Sched)
    requires Switchable(s) && BitmapOk(bitmap, s.run)
    ensures bitmap != 0
  {
    ReschedOk(s);
    ClzIsScan(bitmap, s.run);
  }

  lemma ParkedSwitchable(s: Sched, w: WaitQueueId)
    requires Inv(s) && s.current != BOOT
    ensures Switchable(Park(s, w))
  {
    hide RunOk, WaitsOk;
    ParkOk(s, w);
  }

  lemma BootState(run: RunQueues, m: map<WaitQueueId, WaitQueue>)
    requires forall p :: 0 <= p < 32 ==> run[p] == []
    requires m == map[OfEvent(DPC_EVENT) := WaitQueue([], 0)]
    ensures BitmapOk(0, run) && CountsOk(m) && Lists(m) == map[OfEvent(DPC_EVENT) := []]
  {
    forall p: nat
      ensures !Bit(0, p)
    {
      ZeroBits(p);
    }
  }

  class KernelCode {
    var threads: Threads
    var runQueue: RunQueues
    var runQueueBitmap: nat
    var waitQueues: map<WaitQueueId, WaitQueue>
    var currentThread: Tid
    var idleThread: Option<Tid>
    /** The calls of wait_queue_block on the stacks of the threads. */
    var inWait: InWait
    var mutexes: Mutexes
    var events: Events
    var timerQueue: Timers
    var dpcList: seq<Dpc>
    var dpcPc: DpcPc

    ghost predicate Valid()
      reads this
    {
      && BitmapOk(runQueueBitmap, runQueue)
      && CountsOk(waitQueues)
      && (forall u :: u in mutexes ==> OfMutex(u) in waitQueues)
      && (forall e :: e in events ==> OfEvent(e) in waitQueues)
    }

    ghost function S(): Sched
      reads this
    {
      Sched(threads, runQueue, Lists(waitQueues), currentThread, idleThread)
    }

    ghost function Abs(): Kernel
      reads this
    {
      Kernel(S(), inWait, mutexes, events, timerQueue, dpcList, dpcPc)
    }

    /** thread_init_early, and the event_init of dpc_init. */
    constructor ()
      ensures Valid() && Abs() == Init()
    {
      threads := map[BOOT := Thread(31, Running, 0, None, NO_ERROR)];
      runQueue := seq(32, _ => []);
      runQueueBitmap := 0;
      waitQueues := map[OfEvent(DPC_EVENT) := WaitQueue([], 0)];
      currentThread := BOOT;
      idleThread := None;
      inWait := map[];
      mutexes := map[];
      events := map[DPC_EVENT := Event(false, false)];
      timerQueue := [];
      dpcList := [];
      dpcPc := AtWait;
      new;
      BootState(runQueue, waitQueues);
      hide BitmapOk, CountsOk, Lists;
    }

    // ---------- run queues ----------

    method InsertInRunQueueHead(t: Tid)
      requires Valid()
      modifies this`runQueue, this`runQueueBitmap
      ensures Valid() && S() == PushHead(old(S()), t) && runQueueBitmap != 0
    {
      hide BitmapOk, CountsOk, Lists, Or, Pow2;
      var p := Get(threads, t).priority;
      SetBit(runQueueBitmap, runQueue, p, [t] + runQueue[p]);
      runQueue := runQueue[p := [t] + runQueue[p]];
      runQueueBitmap := Or(runQueueBitmap, Pow2(p));
    }

    method InsertInRunQueueTail(t: Tid)
      requires Valid()
      modifies this`runQueue, this`runQueueBitmap
      ensures Valid() && S() == PushTail(old(S()), t) && runQueueBitmap != 0
    {
      hide BitmapOk, CountsOk, Lists, Or, Pow2;
      var p := Get(threads, t).priority;
      SetBit(runQueueBitmap, runQueue, p, runQueue[p] + [t]);
      runQueue := runQueue[p := runQueue[p] + [t]];
      runQueueBitmap := Or(runQueueBitmap, Pow2(p));
    }

    method ThreadResched()
      requires Valid() && runQueueBitmap != 0
      modifies this`runQueue, this`runQueueBitmap, this`threads, this`currentThread
      ensures Valid() && S() == Resched(old(S()))
    {
      hide BitmapOk, CountsOk, Lists, And, Pow2, Top, Clz32;
      ClzIsScan(runQueueBitmap, runQueue);
      var oldthread := currentThread;
      var nextQueue := HIGHEST_PRIORITY - Clz32(runQueueBitmap) - (32 - NUM_PRIORITIES);
      var newthread := runQueue[nextQueue][0];
      runQueue := runQueue[nextQueue := runQueue[nextQueue][1..]];
      OneBitFits(nextQueue);
      if runQueue[nextQueue] == [] {
        ClearBit(runQueueBitmap, old(runQueue), nextQueue);
        runQueueBitmap := And(runQueueBitmap, Not(Pow2(nextQueue), 32));
      } else {
        StillSet(runQueueBitmap, old(runQueue), nextQueue, runQueue[nextQueue]);
      }
      threads := threads[newthread := Get(threads, newthread).(state := Running)];
      if newthread == oldthread {
        return;
      }
      if Get(threads, newthread).quantum <= 0 {
        threads := threads[newthread := Get(threads, newthread).(quantum := 5)];
      }
      currentThread := newthread;
    }

    method SetThreadState(t: Tid, st: ThreadState)
      modifies this`threads
      ensures S() == SetState(old(S()), t, st)
    {
      threads := threads[t := Get(threads, t).(state := st)];
    }

    // ---------- thread.c entry points ----------

    method ThreadCreate(t: Tid, p: Priority)
      requires Valid()
      modifies this
      ensures Valid() && Abs() == Apply(old(Abs()), Create(t, p))
    {
      threads := threads[t := Thread(p, Suspended, 0, None, NO_ERROR)];
    }

    method ThreadYield()
      requires Valid()
      modifies this
      ensures Valid() && Abs() == Apply(old(Abs()), KernelModel.Step.Yield)
    {
      hide BitmapOk, CountsOk, Resched, Lists, Apply;
      YieldIs(Abs());
      threads := threads[currentThread := Get(threads, currentThread).(state := Ready, quantum := 0)];
      InsertInRunQueueTail(currentThread);
      ThreadResched();
    }

    method ThreadPreempt()
      requires Valid()
      modifies this
      ensures Valid() && Abs() == Apply(old(Abs()), KernelModel.Step.Preempt)
    {
      hide BitmapOk, CountsOk, Resched, Lists, Apply;
      PreemptIs(Abs());
      SetThreadState(currentThread, Ready);
      if Get(threads, currentThread).quantum > 0 {
        InsertInRunQueueHead(currentThread);
      } else {
        InsertInRunQueueTail(currentThread);
      }
      ThreadResched();
    }

    /** True when the thread was resumed, false for ERR_NOT_SUSPENDED. */
    method ThreadResume(t: Tid) returns (ok: bool)
      requires Valid()
      modifies this
      ensures Valid() && Abs() == Apply(old(Abs()), Resume(t))
      ensures ok <==> old(Get(threads, t).state) !in {Ready, Running}
    {
      hide BitmapOk, CountsOk, Lists, Apply, Scheduler.Yield;
      ResumeIs(Abs(), t);
      if Get(threads, t).state == Ready || Get(threads, t).state == Running {
        return false;
      }
      SetThreadState(t, Ready);
      InsertInRunQueueHead(t);
      YieldIs(Abs());
      ThreadYield();
      ok := true;
    }

    method ThreadSetPriority(priority: int)
      requires Valid()
      modifies this
      ensures Valid() && Abs() == Apply(old(Abs()), KernelModel.Step.SetPriority(priority))
    {
      hide BitmapOk, CountsOk, Lists;
      var p := priority;
      if p < IDLE_PRIORITY {
        p := IDLE_PRIORITY;
      }
      if p > HIGHEST_PRIORITY {
        p := HIGHEST_PRIORITY;
      }
      threads := threads[currentThread := Get(threads, currentThread).(priority := p)];
    }

    method ThreadBecomeIdle()
      requires Valid()
      modifies this
      ensures Valid() && Abs() == Apply(old(Abs()), KernelModel.Step.BecomeIdle)
    {
      ThreadSetPriority(IDLE_PRIORITY);
      idleThread := Some(currentThread);
    }

    method ThreadSleep(now: int, delay: nat)
      requires Valid() && Inv(S()) && currentThread != BOOT
      modifies this
      ensures Valid() && Abs() == Apply(old(Abs()), Sleep(now, delay))
    {
      hide Inv, Switchable, Resched, Lists, BitmapOk, Insert;
      TimerSetOneshot(Entry(now + delay, SleepWake(currentThread)));
      RetiredOk(S(), Sleeping);
      SetThreadState(currentThread, Sleeping);
      SomeoneReady(runQueueBitmap, S());
      ThreadResched();
    }

    // ---------- wait queues ----------

    method WaitQueueInit(w: WaitQueueId)
      requires CountsOk(waitQueues)
      modifies this`waitQueues
      ensures CountsOk(waitQueues) && waitQueues == old(waitQueues)[w := WaitQueue([], 0)]
      ensures S() == old(S()).(waits := old(S()).waits[w := []])
    {
      ListsUpdate(waitQueues, w, WaitQueue([], 0));
      waitQueues := waitQueues[w := WaitQueue([], 0)];
    }

    /** The running thread joins wait queue w, still on the cpu. */
    method JoinWaitQueue(w: WaitQueueId)
      requires Valid() && w in waitQueues
      modifies this`waitQueues, this`threads
      ensures Valid() && S() == Park(old(S()), w)
    {
      hide BitmapOk, Lists;
      var q := WaitQueue(waitQueues[w].list + [currentThread], waitQueues[w].count + 1);
      ListsUpdate(waitQueues, w, q);
      waitQueues := waitQueues[w := q];
      threads := threads[currentThread := Get(threads, currentThread).(state := Blocked, blockedOn := Some(w), blockRet := NO_ERROR)];
    }

    /** Up to the switch; false when the timeout is zero and the call returns ERR_TIMED_OUT at once. */
    method WaitQueueBlock(w: WaitQueueId, now: int, timeout: Option<nat>) returns (blocked: bool)
      requires Valid() && Inv(S()) && w in waitQueues
      requires timeout != Some(0) ==> currentThread != BOOT
      modifies this
      ensures Valid() && blocked == (timeout != Some(0))
      ensures Abs() == if timeout == Some(0) then old(Abs()) else BlockOn(old(Abs()), w, now, timeout)
    {
      hide Inv, Switchable, Resched, Lists, BitmapOk, CountsOk, Park, Insert;
      if timeout == Some(0) {
        return false;
      }
      ParkedSwitchable(S(), w);
      JoinWaitQueue(w);
      if timeout.Some? {
        TimerSetOneshot(Entry(now + timeout.value, WaitTimeout(currentThread)));
      }
      inWait := inWait[currentThread := Wait(w, timeout.Some?)];
      SomeoneReady(runQueueBitmap, S());
      ThreadResched();
      blocked := true;
    }

    /** Take t off wait queue w and make it ready, still on no run queue. */
    method Unlink(w: WaitQueueId, t: Tid, err: int)
      requires CountsOk(waitQueues) && w in waitQueues && t in waitQueues[w].list && Distinct(waitQueues[w].list)
      modifies this`waitQueues, this`threads
      ensures CountsOk(waitQueues) && waitQueues.Keys == old(waitQueues).Keys
      ensures S() == Detach(old(S()), w, t, err)
    {
      WithoutFacts(waitQueues[w].list, t);
      var q := WaitQueue(Without(waitQueues[w].list, t), waitQueues[w].count - 1);
      ListsUpdate(waitQueues, w, q);
      waitQueues := waitQueues[w := q];
      threads := threads[t := Get(threads, t).(state := Ready, blockedOn := None, blockRet := err)];
    }

    method WaitQueueWakeOne(w: WaitQueueId, reschedule: bool, err: int) returns (ret: int)
      requires Valid() && w in waitQueues && Distinct(waitQueues[w].list)
      modifies this`waitQueues, this`threads, this`runQueue, this`runQueueBitmap, this`currentThread
      ensures Valid() && waitQueues.Keys == old(waitQueues).Keys
      ensures S() == WakeOne(old(S()), w, reschedule, err)
      ensures ret == if old(waitQueues[w].list) == [] then 0 else 1
    {
      ret := 0;
      if waitQueues[w].list != [] {
        var t := waitQueues[w].list[0];
        Unlink(w, t, err);
        if reschedule {
          SetThreadState(currentThread, Ready);
          InsertInRunQueueHead(currentThread);
        }
        InsertInRunQueueHead(t);
        if reschedule {
          ThreadResched();
        }
        ret := 1;
      }
    }

    /** The loop of wait_queue_wake_all. */
    method DrainWaitQueue(w: WaitQueueId, err: int) returns (ret: int)
      requires Valid() && w in waitQueues && Distinct(waitQueues[w].list)
      modifies this`waitQueues, this`threads, this`runQueue, this`runQueueBitmap
      ensures Valid() && waitQueues.Keys == old(waitQueues).Keys
      ensures S() == Drain(old(S()), w, err)
      ensures ret == |old(waitQueues[w].list)|
      ensures ret > 0 ==> runQueueBitmap != 0
    {
      hide BitmapOk, CountsOk, Lists, Distinct, Detach, PushHead;
      ret := 0;
      ghost var start := S();
      while waitQueues[w].list != []
        invariant Valid() && waitQueues.Keys == old(waitQueues).Keys && Distinct(waitQueues[w].list)
        invariant Drain(S(), w, err) == Drain(start, w, err)
        invariant ret + |waitQueues[w].list| == |old(waitQueues[w].list)|
        invariant ret > 0 ==> runQueueBitmap != 0
        decreases |waitQueues[w].list|
      {
        var t := waitQueues[w].list[0];
        assert t in waitQueues[w].list;
        WithoutFacts(waitQueues[w].list, t);
        ListsUpdate(waitQueues, w, waitQueues[w]);
        DrainOne(S(), w, err);
        Unlink(w, t, err);
        ListsUpdate(waitQueues, w, waitQueues[w]);
        InsertInRunQueueHead(t);
        ret := ret + 1;
      }
      ListsUpdate(waitQueues, w, waitQueues[w]);
    }

    method WaitQueueWakeAll(w: WaitQueueId, reschedule: bool, err: int) returns (ret: int)
      requires Valid() && w in waitQueues && Distinct(waitQueues[w].list)
      modifies this`waitQueues, this`threads, this`runQueue, this`runQueueBitmap, this`currentThread
      ensures Valid() && waitQueues.Keys == old(waitQueues).Keys
      ensures S() == WakeAll(old(S()), w, reschedule, err)
      ensures ret == |old(waitQueues[w].list)|
    {
      hide BitmapOk, Lists, Distinct, Drain, Resched, PushHead, SetState;
      ListsUpdate(waitQueues, w, waitQueues[w]);
      if reschedule && waitQueues[w].count > 0 {
        SetThreadState(currentThread, Ready);
        InsertInRunQueueHead(currentThread);
      }
      ret := DrainWaitQueue(w, err);
      if reschedule && ret > 0 {
        ThreadResched();
      }
    }

    /** With reschedule false, as the timeout handler calls it; false for ERR_NOT_BLOCKED. */
    method ThreadUnblockFromWaitQueue(t: Tid, err: int) returns (ok: bool)
      requires Valid() && Inv(S())
      modifies this`waitQueues, this`threads, this`runQueue, this`runQueueBitmap
      ensures Valid() && waitQueues.Keys == old(waitQueues).Keys
      ensures S() == Unblock(old(S()), t, err)
      ensures ok <==> old(Get(threads, t).state) == Blocked
    {
      if Get(threads, t).state != Blocked {
        return false;
      }
      var w := Get(threads, t).blockedOn.value;
      assert t in Waiting(S(), w);
      Unlink(w, t, err);
      InsertInRunQueueHead(t);
      ok := true;
    }

    // ---------- timers ----------

    method TimerSetOneshot(timer: Entry<Target>)
      modifies this`timerQueue
      ensures timerQueue == Insert(old(timerQueue), timer)
    {
      timerQueue := InsertTimerInQueue(timerQueue, timer);
    }

    method TimerCancel(who: Target)
      modifies this`timerQueue
      ensures timerQueue == Remove(old(timerQueue), who)
    {
      timerQueue := DeleteTimer(timerQueue, who);
    }

    // ---------- mutexes ----------

    method MutexInit(u: nat)
      requires Valid()
      modifies this
      ensures Valid() && Abs() == Apply(old(Abs()), KernelModel.Step.MutexInit(u))
    {
      hide Lists, BitmapOk, CountsOk;
      mutexes := mutexes[u := Mutex(0, None)];
      WaitQueueInit(OfMutex(u));
    }

    /** Up to the switch if it blocks; FinishWait is the rest. False when the zero timeout expired at once. */
    method MutexAcquire(u: nat, now: int, timeout: Option<nat>) returns (ok: bool)
      requires Valid() && Inv(S()) && u in mutexes && mutexes[u].holder != Some(currentThread)
      requires Blocks(Abs(), Acquire(u, now, timeout)) ==> currentThread != BOOT
      modifies this
      ensures Valid() && Abs() == Apply(old(Abs()), Acquire(u, now, timeout))
      ensures !ok <==> old(mutexes[u].count) > 0 && timeout == Some(0)
    {
      hide Inv, BlockOn, BitmapOk, CountsOk, Lists;
      ok := true;
      mutexes := mutexes[u := mutexes[u].(count := mutexes[u].count + 1)];
      if mutexes[u].count > 1 {
        ok := WaitQueueBlock(OfMutex(u), now, timeout);
        if !ok {
          mutexes := mutexes[u := mutexes[u].(count := mutexes[u].count - 1)];
        }
      } else {
        mutexes := mutexes[u := mutexes[u].(holder := Some(currentThread))];
      }
    }

    /** The code behind thread_block: cancel the timer, and take or back out of the mutex.
        Returns what wait_queue_block returns. */
    method FinishWait() returns (ret: int)
      requires Valid() && currentThread in inWait
      requires inWait[currentThread].w.OfMutex? ==> inWait[currentThread].w.m in mutexes
      modifies this
      ensures Valid() && Abs() == Apply(old(Abs()), Return)
      ensures ret == old(Get(threads, currentThread).blockRet)
    {
      hide Remove, Lists, BitmapOk, CountsOk, Apply;
      ReturnIs(Abs());
      var Wait(w, timed) := inWait[currentThread];
      if timed {
        TimerCancel(WaitTimeout(currentThread));
      }
      ret := Get(threads, currentThread).blockRet;
      inWait := inWait - {currentThread};
      match w {
        case OfEvent(_) =>
        case OfMutex(u) =>
          if timed {
            if ret < NO_ERROR && ret == ERR_TIMED_OUT {
              mutexes := mutexes[u := mutexes[u].(count := mutexes[u].count - 1)];
              return;
            }
          } else if ret < 0 {
            return;
          }
          mutexes := mutexes[u := mutexes[u].(holder := Some(currentThread))];
      }
    }

    method MutexRelease(u: nat)
      requires Valid() && Inv(S()) && u in mutexes && mutexes[u].holder == Some(currentThread)
      modifies this
      ensures Valid() && Abs() == Apply(old(Abs()), Release(u))
    {
      hide Inv, WakeOne, Lists, BitmapOk, CountsOk, Apply;
      ReleaseIs(Abs(), u);
      ListDistinct(OfMutex(u));
      mutexes := mutexes[u := mutexes[u].(holder := None)];
      mutexes := mutexes[u := mutexes[u].(count := mutexes[u].count - 1)];
      if mutexes[u].count >= 1 {
        var _ := WaitQueueWakeOne(OfMutex(u), true, NO_ERROR);
      }
    }

    lemma ListDistinct(w: WaitQueueId)
      requires Inv(S()) && w in waitQueues
      ensures Distinct(waitQueues[w].list) && waitQueues[w].list == Waiting(S(), w)
    {
      ListsUpdate(waitQueues, w, waitQueues[w]);
      assert Distinct(Queue(Lists(waitQueues), w));
    }

    // ---------- events ----------

    method EventInit(e: nat, initial: bool, auto: bool)
      requires Valid()
      modifies this
      ensures Valid() && Abs() == Apply(old(Abs()), KernelModel.Step.EventInit(e, initial, auto))
    {
      hide Lists, BitmapOk, CountsOk;
      events := events[e := Event(initial, auto)];
      WaitQueueInit(OfEvent(e));
    }

    method EventWaitTimeout(e: nat, now: int, timeout: Option<nat>) returns (ok: bool)
      requires Valid() && Inv(S()) && e in events
      requires !events[e].signalled && timeout != Some(0) ==> currentThread != BOOT
      modifies this
      ensures Valid() && Abs() == WaitEvent(old(Abs()), e, now, timeout)
      ensures !ok <==> !old(events[e].signalled) && timeout == Some(0)
    {
      hide Inv, Block, Insert;
      ok := true;
      if events[e].signalled {
        if events[e].auto {
          events := events[e := events[e].(signalled := false)];
        }
      } else {
        ok := WaitQueueBlock(OfEvent(e), now, timeout);
      }
    }

    method EventSignal(e: nat, reschedule: bool)
      requires Valid() && e in events && Distinct(waitQueues[OfEvent(e)].list)
      modifies this
      ensures Valid() && Abs() == SignalEvent(old(Abs()), e, reschedule)
    {
      hide WakeOne, WakeAll, Lists, BitmapOk, CountsOk, Distinct;
      ListsUpdate(waitQueues, OfEvent(e), waitQueues[OfEvent(e)]);
      if !events[e].signalled {
        if events[e].auto {
          var n := WaitQueueWakeOne(OfEvent(e), reschedule, NO_ERROR);
          if n <= 0 {
            assert S() == old(S()) by { NobodyToWake(old(S()), OfEvent(e), reschedule); }
            events := events[e := events[e].(signalled := true)];
          }
        } else {
          events := events[e := events[e].(signalled := true)];
          var _ := WaitQueueWakeAll(OfEvent(e), reschedule, NO_ERROR);
        }
      }
    }

    method EventUnsignal(e: nat)
      requires Valid() && e in events
      modifies this
      ensures Valid() && Abs() == Apply(old(Abs()), Unsignal(e))
    {
      hide BitmapOk, CountsOk, Lists;
      events := events[e := events[e].(signalled := false)];
    }

    /** The struct itself may not be used again; its waiters are woken with ERR_OBJECT_DESTROYED. */
    method EventDestroyed(e: nat)
      requires Valid() && Inv(S()) && e in events
      modifies this
      ensures Valid() && Abs() == Apply(old(Abs()), EventDestroy(e))
    {
      hide Inv, WakeAll, Lists, BitmapOk, CountsOk;
      ListDistinct(OfEvent(e));
      events := events - {e};
      var _ := WaitQueueWakeAll(OfEvent(e), true, ERR_OBJECT_DESTROYED);
    }

    // ---------- deferred calls ----------

    method DpcQueue(d: Dpc, reschedule: bool)
      requires Valid() && DPC_EVENT in events && Distinct(waitQueues[OfEvent(DPC_EVENT)].list)
      modifies this
      ensures Valid() && Abs() == PostDpc(old(Abs()), d, reschedule)
    {
      hide SignalEvent;
      dpcList := dpcList + [d];
      EventSignal(DPC_EVENT, reschedule);
    }

    /** The critical section of dpc_thread_routine: a call, or none and the event unsignalled. */
    method DpcTake() returns (d: Option<Dpc>)
      requires Valid() && DPC_EVENT in events
      modifies this
      ensures Valid() && Abs() == TakeDpc(old(Abs()))
      ensures d == if old(dpcList) == [] then None else Some(old(dpcList)[0])
    {
      hide BitmapOk, CountsOk, Lists;
      if dpcList != [] {
        d := Some(dpcList[0]);
        dpcPc := Holding(dpcList[0]);
        dpcList := dpcList[1..];
      } else {
        d := None;
        EventUnsignal(DPC_EVENT);
        dpcPc := AtWait;
      }
    }

    // The rest of dpc_thread_routine: wait for work, call, and go round again.

    method DpcWaitForWork()
      requires Valid() && Inv(S()) && DPC_EVENT in events && currentThread != BOOT
      modifies this
      ensures Valid() && Abs() == Apply(old(Abs()), KernelModel.Step.DpcWait)
    {
      hide WaitEvent, Inv, BitmapOk, CountsOk, Lists;
      dpcPc := AtTake;
      var _ := EventWaitTimeout(DPC_EVENT, 0, None);
    }

    method DpcCallback()
      requires Valid()
      modifies this
      ensures Valid() && Abs() == Apply(old(Abs()), DpcCall)
    {
      hide BitmapOk, CountsOk, Lists;
      if dpcPc.Holding? && dpcPc.d.Cleanup? {
        threads := threads - {dpcPc.d.t};
      }
      dpcPc := InCallback;
    }

    method DpcLoop()
      requires Valid()
      modifies this
      ensures Valid() && Abs() == Apply(old(Abs()), DpcReturn)
    {
      hide BitmapOk, CountsOk, Lists;
      dpcPc := AtWait;
    }

    method ThreadExit()
      requires Valid() && Inv(S()) && currentThread != BOOT && DPC_EVENT in events && !events[DPC_EVENT].auto
      modifies this
      ensures Valid() && Abs() == Apply(old(Abs()), Exit)
    {
      hide Inv, Resched, PostDpc, Switchable, BitmapOk, Lists, CountsOk, Distinct, SetState;
      ListDistinct(OfEvent(DPC_EVENT));
      RetiredOk(S(), Death);
      SetThreadState(currentThread, Death);
      var cleanup := Cleanup(currentThread);
      ghost var k1 := Abs();
      DpcQueue(cleanup, false);
      ExitDrains(k1, cleanup);
      SomeoneReady(runQueueBitmap, S());
      ThreadResched();
    }

    // ---------- the timer interrupt ----------

    method ThreadTimerTick()
      requires Valid()
      modifies this`threads
      ensures Valid() && S() == Charge(old(S()))
    {
      hide BitmapOk, CountsOk, Lists;
      if Some(currentThread) == idleThread {
        return;
      }
      threads := threads[currentThread := Get(threads, currentThread).(quantum := Get(threads, currentThread).quantum - 1)];
    }

    /** The callback of a timer: thread_sleep_handler or wait_queue_timeout_handler. */
    method FireTimer(x: Target)
      requires Valid() && Inv(S())
      modifies this`waitQueues, this`threads, this`runQueue, this`runQueueBitmap
      ensures Valid() && S() == Fire(old(S()), x)
    {
      match x {
        case SleepWake(t) =>
          hide BitmapOk, CountsOk, Lists;
          SetThreadState(t, Ready);
          InsertInRunQueueHead(t);
        case WaitTimeout(t) =>
          hide Inv, Unblock;
          var _ := ThreadUnblockFromWaitQueue(t, ERR_TIMED_OUT);
      }
    }

    /** The firing loop of timer_tick. */
    method FireTimers(now: int)
      requires Valid() && KInv(Abs())
      modifies this
      ensures Valid() && Abs() == FireDue(old(Abs()), now)
    {
      hide KInv, Fire, FireDue, BitmapOk, CountsOk, Lists;
      ghost var k0 := Abs();
      while timerQueue != [] && timerQueue[0].due <= now
        invariant Valid() && KInv(Abs())
        invariant FireDue(Abs(), now) == FireDue(k0, now)
        decreases |timerQueue|
      {
        FireOneOk(Abs(), now);
        var timer := timerQueue[0];
        timerQueue := timerQueue[1..];
        FireTimer(timer.who);
      }
      NothingDue(Abs(), now);
    }

    /** timer_tick, which always asks for a reschedule, and the thread_preempt of the interrupt return. */
    method TimerTick(now: int)
      requires Valid() && KInv(Abs())
      modifies this
      ensures Valid() && Abs() == Apply(old(Abs()), Tick(now))
    {
      hide KInv, FireDue, BitmapOk, CountsOk, Lists, Scheduler.Preempt, Charge;
      FireTimers(now);
      ThreadTimerTick();
      ThreadPreempt();
    }
  }

  /** Firing the earliest due timer is one turn of the loop. */
  lemma FireOneOk(k: Kernel, now: int)
    requires KInv(k) && k.timers != [] && k.timers[0].due <= now
    ensures Inv(k.s)
    ensures var k1 := k.(timers := k.timers[1..], s := Fire(k.s, k.timers[0].who));
            KInv(k1) && FireDue(k, now) == FireDue(k1, now)
  {
    hide Inv, Rest, Unblock, Scheduler.SleepWake;
    match k.timers[0].who
    case SleepWake(t) => KernelSteps.FireWakeSleeper(k, t);
    case WaitTimeout(t) => KernelSteps.FireTimeout(k, t);
  }

  lemma NothingDue(k: Kernel, now: int)
    requires k.timers == [] || now < k.timers[0].due
    ensures FireDue(k, now) == k
  {
  }

  /** Waking the head is one turn of the draining loop. */
  lemma DrainOne(s: Sched, w: WaitQueueId, err: int)
    requires Waiting(s, w) != []
    ensures var t := Waiting(s, w)[0];
            var s1 := PushHead(Detach(s, w, t, err), t);
            Drain(s, w, err) == Drain(s1, w, err) && Waiting(s1, w) == Without(Waiting(s, w), t)
  {
  }

  lemma NobodyToWake(s: Sched, w: WaitQueueId, reschedule: bool)
    requires Waiting(s, w) == []
    ensures WakeOne(s, w, reschedule, NO_ERROR) == s
  {
  }

  lemma ExitDrains(k: Kernel, d: Dpc)
    requires Switchable(k.s) && !EventOf(k, DPC_EVENT).auto
    ensures Switchable(PostDpc(k, d, false).s)
  {
    hide Switchable, Drain;
    KernelSteps.DrainSwitchable(k.s, OfEvent(DPC_EVENT));
  }
}
