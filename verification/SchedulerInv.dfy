/**
 The global scheduler invariant and its preservation by every transition of module Scheduler.
 A thread in `loose` is between queues: in none of them, whatever its state says.
 */
module SchedulerInv {
  import opened Basics
  import opened Scheduler

  ghost predicate RunOk(m: Threads, run: RunQueues, loose: set<Tid>) {
    && (forall p, t :: 0 <= p < 32 && t in run[p] ==>
          t !in loose && Get(m, t).state == Ready && Get(m, t).priority == p)
    && (forall p :: 0 <= p < 32 ==> Distinct(run[p]))
    && (forall t :: Get(m, t).state == Ready && t !in loose ==> t in run[Get(m, t).priority])
  }

  ghost predicate WaitsOk(m: Threads, waits: Waits, loose: set<Tid>) {
    && (forall w, t :: t in Queue(waits, w) ==>
          t !in loose && Get(m, t).state == Blocked && Get(m, t).blockedOn == Some(w))
    && (forall w :: Distinct(Queue(waits, w)))
    && (forall t :: Get(m, t).state == Blocked && t !in loose ==>
          Get(m, t).blockedOn.Some? && t in Queue(waits, Get(m, t).blockedOn.value))
  }

  /** Only `current` may be running, and a thread names a wait queue only while blocked. */
  ghost predicate ThreadsOk(m: Threads, current: Tid, loose: set<Tid>) {
    && (forall t :: Get(m, t).state == Running && t !in loose ==> t == current)
    && (forall t :: Get(m, t).state != Blocked ==> Get(m, t).blockedOn == None)
  }

  ghost predicate Wf(s: Sched, loose: set<Tid>) {
    && RunOk(s.threads, s.run, loose)
    && WaitsOk(s.threads, s.waits, loose)
    && ThreadsOk(s.threads, s.current, loose)
  }

  ghost predicate NoneRunning(s: Sched) {
    forall t :: Get(s.threads, t).state != Running
  }

  /** The invariant between steps: exactly the current thread runs, and the bootstrap thread
      (which becomes the idle thread) is always runnable. */
  ghost predicate Inv(s: Sched) {
    && Wf(s, {})
    && At(s, s.current).state == Running
    && At(s, BOOT).state in {Ready, Running}
    && (s.idle.Some? ==> s.idle.value == BOOT)
  }

  /** The state in which thread_resched may be called. */
  ghost predicate Switchable(s: Sched) {
    Wf(s, {}) && NoneRunning(s) && At(s, BOOT).state == Ready && (s.idle.Some? ==> s.idle.value == BOOT)
  }

  /** No ready thread is more urgent than the running one. */
  ghost predicate AtTop(s: Sched) {
    forall t :: At(s, t).state == Ready ==> At(s, t).priority <= At(s, s.current).priority
  }

  /** Every thread is in at most one queue, and which one is a function of its own fields. */
  lemma QueuesFollowState(s: Sched, t: Tid)
    requires Inv(s)
    ensures At(s, t).state == Ready <==> exists p :: 0 <= p < 32 && t in s.run[p]
    ensures forall p :: 0 <= p < 32 ==> (t in s.run[p] <==> At(s, t).state == Ready && At(s, t).priority == p)
    ensures At(s, t).state == Blocked <==> exists w :: t in Waiting(s, w)
    ensures forall w :: t in Waiting(s, w) <==> At(s, t).state == Blocked && At(s, t).blockedOn == Some(w)
    ensures At(s, t).state == Running <==> t == s.current
  {
    if At(s, t).state == Ready {
      assert t in s.run[At(s, t).priority];
    }
    if At(s, t).state == Blocked {
      assert t in Waiting(s, At(s, t).blockedOn.value);
    }
  }

  // ---------- frames ----------

  lemma GetUpdate(m: Threads, t: Tid, r: Thread)
    ensures forall u {:trigger Get(m[t := r], u)} :: Get(m[t := r], u) == if u == t then r else Get(m, u)
  {
  }

  lemma RewriteRun(m: Threads, run: RunQueues, loose: set<Tid>, t: Tid, r: Thread)
    requires RunOk(m, run, loose) && (t in loose || Get(m, t).state != Ready)
    ensures RunOk(m[t := r], run, loose + {t})
  {
    GetUpdate(m, t, r);
  }

  lemma RewriteWaits(m: Threads, waits: Waits, loose: set<Tid>, t: Tid, r: Thread)
    requires WaitsOk(m, waits, loose) && (t in loose || Get(m, t).state != Blocked)
    ensures WaitsOk(m[t := r], waits, loose + {t})
  {
    GetUpdate(m, t, r);
  }

  lemma RewriteThreads(m: Threads, current: Tid, loose: set<Tid>, t: Tid, r: Thread)
    requires ThreadsOk(m, current, loose) && (r.state != Blocked ==> r.blockedOn == None)
    ensures ThreadsOk(m[t := r], current, loose + {t})
  {
    GetUpdate(m, t, r);
  }

  lemma LeaveWait(m: Threads, waits: Waits, loose: set<Tid>, w: WaitQueueId, t: Tid, q: seq<Tid>, r: Thread)
    requires WaitsOk(m, waits, loose) && t in Queue(waits, w)
    requires Distinct(q) && forall u :: u in q <==> u in Queue(waits, w) && u != t
    ensures WaitsOk(m[t := r], waits[w := q], loose + {t})
    ensures forall v :: Queue(waits[w := q], v) == if v == w then q else Queue(waits, v)
  {
    var m', waits' := m[t := r], waits[w := q];
    GetUpdate(m, t, r);
    assert forall v :: Queue(waits', v) == if v == w then q else Queue(waits, v);
    forall u | Get(m', u).state == Blocked && u !in loose + {t}
      ensures Get(m', u).blockedOn.Some? && u in Queue(waits', Get(m', u).blockedOn.value)
    {
      assert u in Queue(waits, Get(m, u).blockedOn.value);
    }
  }

  lemma JoinWait(m: Threads, waits: Waits, loose: set<Tid>, w: WaitQueueId, t: Tid, q: seq<Tid>)
    requires WaitsOk(m, waits, loose) && t in loose
    requires Get(m, t).state == Blocked && Get(m, t).blockedOn == Some(w)
    requires q == Queue(waits, w) + [t]
    ensures WaitsOk(m, waits[w := q], loose - {t})
    ensures forall v :: Queue(waits[w := q], v) == if v == w then q else Queue(waits, v)
  {
    var waits' := waits[w := q];
    PushFacts(Queue(waits, w), t);
    assert forall v :: Queue(waits', v) == if v == w then q else Queue(waits, v);
  }

  lemma JoinRun(m: Threads, run: RunQueues, loose: set<Tid>, t: Tid, q: seq<Tid>)
    requires RunOk(m, run, loose) && t in loose && Get(m, t).state == Ready
    requires var p := Get(m, t).priority; q == [t] + run[p] || q == run[p] + [t]
    ensures RunOk(m, run[Get(m, t).priority := q], loose - {t})
  {
    PushFacts(run[Get(m, t).priority], t);
  }

  lemma LeaveRun(m: Threads, run: RunQueues, loose: set<Tid>, p: Priority)
    requires RunOk(m, run, loose) && run[p] != []
    ensures RunOk(m, run[p := run[p][1..]], loose + {run[p][0]})
  {
    PopFacts(run[p]);
    assert run[p][0] in run[p];
  }

  lemma TightenRun(m: Threads, run: RunQueues, loose: set<Tid>, t: Tid)
    requires RunOk(m, run, loose) && Get(m, t).state != Ready
    ensures RunOk(m, run, loose - {t})
  {
  }

  lemma TightenWaits(m: Threads, waits: Waits, loose: set<Tid>, t: Tid)
    requires WaitsOk(m, waits, loose) && Get(m, t).state != Blocked
    ensures WaitsOk(m, waits, loose - {t})
  {
  }

  // ---------- primitive moves ----------

  /** Rewriting a thread that is in no queue takes it out of the invariant's care. */
  lemma Loosen(s: Sched, loose: set<Tid>, t: Tid, r: Thread)
    requires Wf(s, loose)
    requires t in loose || (At(s, t).state != Ready && At(s, t).state != Blocked)
    requires r.state != Blocked ==> r.blockedOn == None
    ensures Wf(Put(s, t, r), loose + {t})
    ensures loose == {} ==> Wf(Put(s, t, r), {t})
  {
    hide RunOk, WaitsOk, ThreadsOk;
    RewriteRun(s.threads, s.run, loose, t, r);
    RewriteWaits(s.threads, s.waits, loose, t, r);
    RewriteThreads(s.threads, s.current, loose, t, r);
    assert {} + {t} == {t};
  }

  /** A loose thread whose state calls for no queue needs no care. */
  lemma Tighten(s: Sched, loose: set<Tid>, t: Tid)
    requires Wf(s, loose)
    requires At(s, t).state in {Suspended, Sleeping, Death} || (At(s, t).state == Running && t == s.current)
    ensures Wf(s, loose - {t})
    ensures loose == {t} ==> Wf(s, {})
  {
    hide RunOk, WaitsOk;
    TightenRun(s.threads, s.run, loose, t);
    TightenWaits(s.threads, s.waits, loose, t);
    assert {t} - {t} == {};
  }

  lemma PushHeadOk(s: Sched, loose: set<Tid>, t: Tid)
    requires Wf(s, loose) && t in loose && At(s, t).state == Ready
    ensures Wf(PushHead(s, t), loose - {t})
    ensures loose == {t} ==> Wf(PushHead(s, t), {})
  {
    hide RunOk, WaitsOk;
    JoinRun(s.threads, s.run, loose, t, [t] + s.run[At(s, t).priority]);
    TightenWaits(s.threads, s.waits, loose, t);
    assert {t} - {t} == {};
  }

  lemma PushTailOk(s: Sched, loose: set<Tid>, t: Tid)
    requires Wf(s, loose) && t in loose && At(s, t).state == Ready
    ensures Wf(PushTail(s, t), loose - {t})
    ensures loose == {t} ==> Wf(PushTail(s, t), {})
  {
    hide RunOk, WaitsOk;
    JoinRun(s.threads, s.run, loose, t, s.run[At(s, t).priority] + [t]);
    TightenWaits(s.threads, s.waits, loose, t);
    assert {t} - {t} == {};
  }

  lemma DetachOk(s: Sched, loose: set<Tid>, w: WaitQueueId, t: Tid, err: int)
    requires Wf(s, loose) && t in Waiting(s, w)
    ensures Wf(Detach(s, w, t, err), loose + {t})
    ensures loose == {} ==> Wf(Detach(s, w, t, err), {t})
    ensures forall v :: Waiting(Detach(s, w, t, err), v) == if v == w then Without(Waiting(s, w), t) else Waiting(s, v)
  {
    hide RunOk;
    var r := At(s, t).(state := Ready, blockedOn := None, blockRet := err);
    var q := Without(Waiting(s, w), t);
    WithoutFacts(Waiting(s, w), t);
    RewriteRun(s.threads, s.run, loose, t, r);
    assert At(s, t).state == Blocked && t !in loose;
    hide WaitsOk, ThreadsOk;
    LeaveWait(s.threads, s.waits, loose, w, t, q, r);
    RewriteThreads(s.threads, s.current, loose, t, r);
    assert {} + {t} == {t};
  }

  lemma ParkOk(s: Sched, w: WaitQueueId)
    requires Inv(s)
    ensures Wf(Park(s, w), {}) && NoneRunning(Park(s, w))
    ensures forall v :: Waiting(Park(s, w), v) == Waiting(s, v) + if v == w then [s.current] else []
  {
    hide RunOk, WaitsOk;
    var r := At(s, s.current).(state := Blocked, blockedOn := Some(w), blockRet := NO_ERROR);
    Loosen(s, {}, s.current, r);
    JoinWait(Put(s, s.current, r).threads, s.waits, {s.current}, w, s.current, Waiting(s, w) + [s.current]);
    TightenRun(Put(s, s.current, r).threads, s.run, {s.current}, s.current);
    assert {s.current} - {s.current} == {};
  }

  /** The boot thread is ready, so there is a thread to pick. */
  lemma PickExists(s: Sched)
    requires RunOk(s.threads, s.run, {}) && At(s, BOOT).state == Ready
    ensures 0 <= Top(s.run, 31)
    ensures var p := Top(s.run, 31); At(s, s.run[p][0]).state == Ready && At(s, s.run[p][0]).priority == p
  {
    var p := Top(s.run, 31);
    assert BOOT in s.run[At(s, BOOT).priority];
    assert 0 <= p;
    assert s.run[p][0] in s.run[p];
  }

  /** Every ready thread is on a queue, and no queue above the top one has any. */
  lemma TopOutranks(s: Sched, t: Tid)
    requires RunOk(s.threads, s.run, {}) && At(s, t).state == Ready
    ensures At(s, t).priority <= Top(s.run, 31)
  {
    assert t in s.run[At(s, t).priority];
  }

  /** The thread at the head of the top queue starts to run. */
  lemma PickedOk(s: Sched)
    requires Switchable(s) && 0 <= Top(s.run, 31)
    ensures var (p, s') := (Top(s.run, 31), Resched(s)); var t := s.run[p][0];
            && Wf(s', {}) && s'.current == t && s'.idle == s.idle && At(s', t) == RunsNext(s, t)
            && forall u :: u != t ==> At(s', u) == At(s, u)
  {
    hide RunOk, WaitsOk, ThreadsOk, Distinct;
    var p := Top(s.run, 31);
    var t := s.run[p][0];
    var r := RunsNext(s, t);
    var s1 := s.(run := s.run[p := s.run[p][1..]], current := t);
    assert Resched(s) == Put(s1, t, r);
    Leaves(s, p);
    Loosen(s1, {t}, t, r);
    assert {t} + {t} == {t};
    Tighten(Resched(s), {t}, t);
    assert {t} - {t} == {};
  }

  /** The picked thread as thread_resched leaves it. */
  function RunsNext(s: Sched, t: Tid): Thread {
    var r := At(s, t).(state := Running);
    if t != s.current && r.quantum <= 0 then r.(quantum := 5) else r
  }

  lemma Leaves(s: Sched, p: Priority)
    requires Wf(s, {}) && NoneRunning(s) && s.run[p] != []
    ensures Wf(s.(run := s.run[p := s.run[p][1..]], current := s.run[p][0]), {s.run[p][0]})
    ensures At(s, s.run[p][0]).state == Ready && At(s, s.run[p][0]).blockedOn == None
  {
    var t := s.run[p][0];
    assert t in s.run[p];
    assert {} + {t} == {t};
    LeaveRun(s.threads, s.run, {}, p);
  }

  /** thread_resched: the bootstrap thread guarantees a pick, the pick is the head of the highest
      nonempty run queue, and the new running thread is at least as urgent as every ready one. */
  lemma ReschedOk(s: Sched)
    requires Switchable(s)
    ensures 0 <= Top(s.run, 31)
    ensures Inv(Resched(s))
    ensures Resched(s).current == s.run[Top(s.run, 31)][0]
    ensures AtTop(Resched(s))
  {
    hide RunOk, WaitsOk, ThreadsOk, Resched;
    PickExists(s);
    PickedOk(s);
    forall t | At(Resched(s), t).state == Ready
      ensures At(s, t).priority <= Top(s.run, 31)
    {
      TopOutranks(s, t);
    }
  }

  // ---------- the transitions ----------

  lemma RequeueHeadOk(s: Sched, loose: set<Tid>)
    requires Wf(s, loose) && At(s, s.current).state == Running && s.current !in loose
    ensures Wf(RequeueHead(s), loose)
    ensures forall t :: t !in loose ==> Get(RequeueHead(s).threads, t).state != Running
  {
    hide RunOk, WaitsOk;
    var r := At(s, s.current).(state := Ready);
    Loosen(s, loose, s.current, r);
    PushHeadOk(Put(s, s.current, r), loose + {s.current}, s.current);
    assert loose + {s.current} - {s.current} == loose;
  }

  /** Requeueing the running thread with record r makes the state switchable. */
  lemma RequeuedOk(s: Sched, r: Thread)
    requires Inv(s) && r.state == Ready && r.blockedOn == None
    ensures Wf(Put(s, s.current, r), {s.current})
    ensures Switchable(PushHead(Put(s, s.current, r), s.current))
    ensures Switchable(PushTail(Put(s, s.current, r), s.current))
  {
    hide RunOk, WaitsOk;
    Loosen(s, {}, s.current, r);
    PushHeadOk(Put(s, s.current, r), {s.current}, s.current);
    PushTailOk(Put(s, s.current, r), {s.current}, s.current);
  }

  lemma YieldOk(s: Sched)
    requires Inv(s)
    ensures Inv(Yield(s)) && AtTop(Yield(s))
  {
    hide Wf, Switchable, Resched, AtTop;
    var r := At(s, s.current).(state := Ready, quantum := 0);
    assert r.blockedOn == None by { RunningFacts(s); }
    RequeuedOk(s, r);
    ReschedOk(PushTail(Put(s, s.current, r), s.current));
  }

  lemma RunningFacts(s: Sched)
    requires Inv(s)
    ensures At(s, s.current).blockedOn == None
  {
  }

  lemma PreemptOk(s: Sched)
    requires Inv(s)
    ensures Inv(Preempt(s)) && AtTop(Preempt(s))
  {
    hide Wf, Switchable, Resched, AtTop;
    RunningFacts(s);
    var r := At(s, s.current).(state := Ready);
    RequeuedOk(s, r);
    ReschedOk(PushHead(Put(s, s.current, r), s.current));
    ReschedOk(PushTail(Put(s, s.current, r), s.current));
  }

  lemma CreateOk(s: Sched, t: Tid, p: Priority)
    requires Inv(s) && t !in s.threads
    ensures Inv(Create(s, t, p))
  {
    hide RunOk, WaitsOk;
    var r := Thread(p, Suspended, 0, None, NO_ERROR);
    Loosen(s, {}, t, r);
    Tighten(Put(s, t, r), {t}, t);
  }

  /** Making a thread ready that was in no queue. */
  lemma ReadyOk(s: Sched, t: Tid)
    requires Inv(s) && At(s, t).state in {Suspended, Sleeping}
    ensures Inv(PushHead(SetState(s, t, Ready), t))
  {
    hide RunOk, WaitsOk;
    var r := At(s, t).(state := Ready);
    Loosen(s, {}, t, r);
    PushHeadOk(Put(s, t, r), {t}, t);
  }

  lemma ResumeThreadOk(s: Sched, t: Tid)
    requires Inv(s) && At(s, t).state in {Suspended, Ready, Running}
    ensures Inv(ResumeThread(s, t))
    ensures At(s, t).state == Suspended ==> AtTop(ResumeThread(s, t))
  {
    hide Inv, Yield, AtTop;
    if At(s, t).state == Suspended {
      ReadyOk(s, t);
      YieldOk(PushHead(SetState(s, t, Ready), t));
    }
  }

  lemma RetiredOk(s: Sched, st: ThreadState)
    requires Inv(s) && s.current != BOOT && st in {Sleeping, Death}
    ensures Switchable(SetState(s, s.current, st))
  {
    hide RunOk, WaitsOk;
    var r := At(s, s.current).(state := st);
    Loosen(s, {}, s.current, r);
    Tighten(Put(s, s.current, r), {s.current}, s.current);
  }

  lemma RetireOk(s: Sched, st: ThreadState)
    requires Inv(s) && s.current != BOOT && st in {Sleeping, Death}
    ensures Inv(Retire(s, st)) && AtTop(Retire(s, st))
  {
    hide Wf, Switchable, Resched, AtTop;
    RetiredOk(s, st);
    ReschedOk(SetState(s, s.current, st));
  }

  lemma RunningUpdateOk(s: Sched, r: Thread)
    requires Inv(s) && r.state == Running && r.blockedOn == None
    ensures Inv(Put(s, s.current, r))
  {
    hide RunOk, WaitsOk;
    Loosen(s, {}, s.current, r);
    Tighten(Put(s, s.current, r), {s.current}, s.current);
  }

  lemma SetPriorityOk(s: Sched, p: int)
    requires Inv(s)
    ensures Inv(SetPriority(s, p))
  {
    hide Wf;
    RunningFacts(s);
    var q: Priority := if p < 0 then 0 else if p > HIGHEST_PRIORITY then 31 else p;
    RunningUpdateOk(s, At(s, s.current).(priority := q));
  }

  lemma BecomeIdleOk(s: Sched)
    requires Inv(s) && s.current == BOOT
    ensures Inv(BecomeIdle(s))
  {
    hide RunOk, WaitsOk, ThreadsOk;
    SetPriorityOk(s, IDLE_PRIORITY);
  }

  lemma ChargeOk(s: Sched)
    requires Inv(s)
    ensures Inv(Charge(s))
  {
    hide Wf;
    RunningFacts(s);
    var r := At(s, s.current);
    RunningUpdateOk(s, r.(quantum := r.quantum - 1));
  }

  lemma BlockOk(s: Sched, w: WaitQueueId)
    requires Inv(s) && s.current != BOOT
    ensures Inv(Block(s, w)) && AtTop(Block(s, w))
  {
    hide Wf, Resched, AtTop;
    ParkOk(s, w);
    ReschedOk(Park(s, w));
  }

  /** Waking one thread that is queued on w, with the current thread left running. */
  lemma UnparkOk(s: Sched, loose: set<Tid>, w: WaitQueueId, t: Tid, err: int)
    requires Wf(s, loose) && t in Waiting(s, w)
    ensures Wf(PushHead(Detach(s, w, t, err), t), loose)
    ensures forall v :: Waiting(PushHead(Detach(s, w, t, err), t), v)
                     == if v == w then Without(Waiting(s, w), t) else Waiting(s, v)
  {
    var s1 := Detach(s, w, t, err);
    assert t !in loose;
    hide RunOk, WaitsOk, ThreadsOk;
    DetachOk(s, loose, w, t, err);
    PushHeadOk(s1, loose + {t}, t);
    assert loose + {t} - {t} == loose;
  }

  /** The queue moves of a wake-up with reschedule: detach t, requeue the waker, then t in front of it. */
  lemma HandOverOk(s: Sched, w: WaitQueueId, t: Tid, err: int)
    requires Inv(s) && t in Waiting(s, w)
    ensures Switchable(PushHead(RequeueHead(Detach(s, w, t, err)), t))
  {
    var s1 := Detach(s, w, t, err);
    assert At(s, t).state == Blocked;
    DetachOk(s, {}, w, t, err);
    hide RunOk, WaitsOk, Without;
    RequeueHeadOk(s1, {t});
    PushHeadOk(RequeueHead(s1), {t}, t);
  }

  lemma WakeOneOk(s: Sched, w: WaitQueueId, resched: bool, err: int)
    requires Inv(s)
    ensures Inv(WakeOne(s, w, resched, err))
    ensures resched && Waiting(s, w) != [] ==> AtTop(WakeOne(s, w, resched, err))
  {
    hide AtTop;
    if Waiting(s, w) != [] {
      var t := Waiting(s, w)[0];
      assert t in Waiting(s, w);
      if resched {
        hide Inv, Switchable, Resched, Detach;
        HandOverOk(s, w, t, err);
        ReschedOk(PushHead(RequeueHead(Detach(s, w, t, err)), t));
      } else {
        WakeHereOk(s, w, t, err);
      }
    }
  }

  lemma WakeHereOk(s: Sched, w: WaitQueueId, t: Tid, err: int)
    requires Inv(s) && t in Waiting(s, w)
    ensures Inv(PushHead(Detach(s, w, t, err), t))
  {
    assert At(s, t).state == Blocked;
    UnparkOk(s, {}, w, t, err);
    hide Wf;
  }

  lemma {:induction false} DrainOk(s: Sched, w: WaitQueueId, err: int)
    requires Wf(s, {})
    ensures Wf(Drain(s, w, err), {})
    ensures forall t :: Get(Drain(s, w, err).threads, t).state == Running <==> Get(s.threads, t).state == Running
    ensures forall t :: Get(s.threads, t).state == Ready ==> Get(Drain(s, w, err).threads, t).state == Ready
    ensures Drain(s, w, err).current == s.current && Drain(s, w, err).idle == s.idle
    ensures Waiting(Drain(s, w, err), w) == []
    decreases |Waiting(s, w)|
  {
    if Waiting(s, w) != [] {
      var t := Waiting(s, w)[0];
      assert t in Waiting(s, w);
      assert At(s, t).state == Blocked;
      hide RunOk, WaitsOk, ThreadsOk;
      UnparkOk(s, {}, w, t, err);
      DrainOk(PushHead(Detach(s, w, t, err), t), w, err);
    }
  }

  lemma WakeAllOk(s: Sched, w: WaitQueueId, resched: bool, err: int)
    requires Inv(s)
    ensures Inv(WakeAll(s, w, resched, err))
    ensures resched && Waiting(s, w) != [] ==> AtTop(WakeAll(s, w, resched, err))
  {
    hide Wf, Resched, AtTop;
    if resched && Waiting(s, w) != [] {
      DrainedOk(s, w, err);
      ReschedOk(Drain(RequeueHead(s), w, err));
    } else {
      DrainHereOk(s, w, err);
    }
  }

  lemma ReadyIsQueued(s: Sched, t: Tid)
    requires RunOk(s.threads, s.run, {}) && At(s, t).state == Ready
    ensures exists p :: 0 <= p < 32 && t in s.run[p]
  {
    assert t in s.run[At(s, t).priority];
  }

  /** Whoever calls wait_queue_wake_all is still on a run queue when everyone else has been put on theirs. */
  lemma DrainedOk(s: Sched, w: WaitQueueId, err: int)
    requires Inv(s)
    ensures Switchable(Drain(RequeueHead(s), w, err))
    ensures At(Drain(RequeueHead(s), w, err), s.current).state == Ready
    ensures exists p :: 0 <= p < 32 && s.current in Drain(RequeueHead(s), w, err).run[p]
  {
    hide RunOk, WaitsOk, ThreadsOk;
    RequeueHeadOk(s, {});
    DrainOk(RequeueHead(s), w, err);
    ReadyIsQueued(Drain(RequeueHead(s), w, err), s.current);
  }

  lemma DrainHereOk(s: Sched, w: WaitQueueId, err: int)
    requires Inv(s)
    ensures Inv(Drain(s, w, err))
  {
    hide RunOk, WaitsOk, ThreadsOk;
    DrainOk(s, w, err);
    if At(s, BOOT).state == Running {
      assert Get(Drain(s, w, err).threads, BOOT).state == Running;
    } else {
      assert Get(s.threads, BOOT).state == Ready;
    }
  }

  lemma UnblockOk(s: Sched, t: Tid, err: int)
    requires Inv(s)
    ensures Inv(Unblock(s, t, err))
  {
    match At(s, t)
    case Thread(_, Blocked, _, Some(w), _) => WakeHereOk(s, w, t, err);
    case _ =>
  }
}
