/**
 The scheduler of kernel/thread.c as a transition system on values: threads, the 32 run
 queues, the wait queues and the running thread. Every function here is total: a thread
 identifier that was never created reads as a dead thread. Nothing in these functions
 assumes the invariants, which are proved about them in SchedulerInv.
 */
module Scheduler {
  import opened Basics

  const NUM_PRIORITIES: int := 32
  const HIGHEST_PRIORITY: int := 31
  const IDLE_PRIORITY: int := 0

  const NO_ERROR: int := 0
  const ERR_OBJECT_DESTROYED: int := -11
  const ERR_TIMED_OUT: int := -13

  type Tid = nat
  type Priority = p: int | 0 <= p < 32
  type RunQueues = r: seq<seq<Tid>> | |r| == 32 witness seq(32, _ => [])

  /** The thread that runs kmain and ends as the idle thread. */
  const BOOT: Tid := 0

  datatype WaitQueueId = OfMutex(m: nat) | OfEvent(e: nat)

  datatype ThreadState = Suspended | Ready | Running | Blocked | Sleeping | Death

  datatype Thread = Thread(priority: Priority, state: ThreadState, quantum: int,
                           blockedOn: Option<WaitQueueId>, blockRet: int)

  const DEAD := Thread(0, Death, 0, None, NO_ERROR)

  type Threads = map<Tid, Thread>
  type Waits = map<WaitQueueId, seq<Tid>>

  datatype Sched = Sched(threads: Threads, run: RunQueues, waits: Waits, current: Tid, idle: Option<Tid>)

  function Get(m: Threads, t: Tid): Thread {
    if t in m then m[t] else DEAD
  }

  function Queue(m: Waits, w: WaitQueueId): seq<Tid> {
    if w in m then m[w] else []
  }

  function At(s: Sched, t: Tid): Thread {
    Get(s.threads, t)
  }

  function Put(s: Sched, t: Tid, r: Thread): Sched {
    s.(threads := s.threads[t := r])
  }

  function SetState(s: Sched, t: Tid, st: ThreadState): Sched {
    Put(s, t, At(s, t).(state := st))
  }

  function Waiting(s: Sched, w: WaitQueueId): seq<Tid> {
    Queue(s.waits, w)
  }

  function PushHead(s: Sched, t: Tid): Sched {
    var p := At(s, t).priority;
    s.(run := s.run[p := [t] + s.run[p]])
  }

  function PushTail(s: Sched, t: Tid): Sched {
    var p := At(s, t).priority;
    s.(run := s.run[p := s.run[p] + [t]])
  }

  /** Scan from priority p down to 0 for a nonempty run queue; -1 when there is none. */
  function Top(run: RunQueues, p: int): (top: int)
    requires -1 <= p < 32
    ensures -1 <= top <= p
    ensures 0 <= top ==> run[top] != []
    ensures forall q :: top < q <= p ==> run[q] == []
    decreases p + 1
  {
    if p < 0 then -1 else if run[p] != [] then p else Top(run, p - 1)
  }

  /** thread_resched: pop the highest run queue and make its head the running thread. */
  function Resched(s: Sched): Sched {
    var p := Top(s.run, 31);
    if p < 0 then s else
      var t := s.run[p][0];
      var r := At(s, t).(state := Running);
      var s1 := s.(run := s.run[p := s.run[p][1..]]);
      if t == s.current then Put(s1, t, r)
      else Put(s1, t, if r.quantum <= 0 then r.(quantum := 5) else r).(current := t)
  }

  /** The running thread becomes ready at the head of its queue. */
  function RequeueHead(s: Sched): Sched {
    PushHead(SetState(s, s.current, Ready), s.current)
  }

  function Yield(s: Sched): Sched {
    var r := At(s, s.current).(state := Ready, quantum := 0);
    Resched(PushTail(Put(s, s.current, r), s.current))
  }

  function Preempt(s: Sched): Sched {
    var s1 := SetState(s, s.current, Ready);
    Resched(if At(s, s.current).quantum > 0 then PushHead(s1, s.current) else PushTail(s1, s.current))
  }

  function Create(s: Sched, t: Tid, p: Priority): Sched {
    Put(s, t, Thread(p, Suspended, 0, None, NO_ERROR))
  }

  /** thread_resume: nothing for a ready or running thread (ERR_NOT_SUSPENDED), else ready it and yield. */
  function ResumeThread(s: Sched, t: Tid): Sched {
    if At(s, t).state == Ready || At(s, t).state == Running then s
    else Yield(PushHead(SetState(s, t, Ready), t))
  }

  /** The state change of thread_exit and thread_sleep: off the cpu, on no queue. */
  function Retire(s: Sched, st: ThreadState): Sched {
    Resched(SetState(s, s.current, st))
  }

  /** thread_sleep_handler. */
  function SleepWake(s: Sched, t: Tid): Sched {
    PushHead(SetState(s, t, Ready), t)
  }

  function SetPriority(s: Sched, p: int): Sched {
    var q: Priority := if p < 0 then 0 else if p > HIGHEST_PRIORITY then 31 else p;
    Put(s, s.current, At(s, s.current).(priority := q))
  }

  function BecomeIdle(s: Sched): Sched {
    SetPriority(s, IDLE_PRIORITY).(idle := Some(s.current))
  }

  /** The quantum part of thread_timer_tick. */
  function Charge(s: Sched): Sched {
    if Some(s.current) == s.idle then s
    else var r := At(s, s.current); Put(s, s.current, r.(quantum := r.quantum - 1))
  }

  /** wait_queue_block with a nonzero timeout, up to the context switch. */
  function Park(s: Sched, w: WaitQueueId): Sched {
    var r := At(s, s.current).(state := Blocked, blockedOn := Some(w), blockRet := NO_ERROR);
    Put(s, s.current, r).(waits := s.waits[w := Waiting(s, w) + [s.current]])
  }

  function Block(s: Sched, w: WaitQueueId): Sched {
    Resched(Park(s, w))
  }

  /** Take t off the wait queue w with return value err, not yet on a run queue. */
  function Detach(s: Sched, w: WaitQueueId, t: Tid, err: int): Sched {
    var r := At(s, t).(state := Ready, blockedOn := None, blockRet := err);
    Put(s, t, r).(waits := s.waits[w := Without(Waiting(s, w), t)])
  }

  /** wait_queue_wake_one; the caller learns whether it woke anyone from Waiting(s, w) != []. */
  function WakeOne(s: Sched, w: WaitQueueId, resched: bool, err: int): Sched {
    if Waiting(s, w) == [] then s else
      var t := Waiting(s, w)[0];
      var s1 := Detach(s, w, t, err);
      if resched then Resched(PushHead(RequeueHead(s1), t)) else PushHead(s1, t)
  }

  /** The draining loop of wait_queue_wake_all. */
  function Drain(s: Sched, w: WaitQueueId, err: int): Sched
    decreases |Waiting(s, w)|
  {
    if Waiting(s, w) == [] then s else
      var t := Waiting(s, w)[0];
      Drain(PushHead(Detach(s, w, t, err), t), w, err)
  }

  function WakeAll(s: Sched, w: WaitQueueId, resched: bool, err: int): Sched {
    if resched && Waiting(s, w) != [] then Resched(Drain(RequeueHead(s), w, err))
    else Drain(s, w, err)
  }

  /** thread_unblock_from_wait_queue without reschedule, as the timeout handler calls it. */
  function Unblock(s: Sched, t: Tid, err: int): Sched {
    match At(s, t)
    case Thread(_, Blocked, _, Some(w), _) => PushHead(Detach(s, w, t, err), t)
    case _ => s
  }
}
