/**
 What each scheduler transition does to the threads as seen from the blocking primitives:
 a thread's view is its kind of state, the wait queue it is on and its last wait result.
 Ready and running look alike, so plain rescheduling changes no view.
 */
module SchedulerEffects {
  import opened Basics
  import opened Scheduler
  import opened SchedulerInv

  datatype Kind = Active | Parked | Asleep | Fresh | Gone

  datatype View = View(kind: Kind, on: Option<WaitQueueId>, ret: int)

  function KindOf(st: ThreadState): Kind {
    match st
    case Suspended => Fresh
    case Ready => Active
    case Running => Active
    case Blocked => Parked
    case Sleeping => Asleep
    case Death => Gone
  }

  function Look(m: Threads, t: Tid): View {
    var r := Get(m, t);
    View(KindOf(r.state), r.blockedOn, r.blockRet)
  }

  /** No view changed, except possibly those of the threads in x. */
  ghost predicate Same(m: Threads, m': Threads, x: set<Tid>) {
    forall t {:trigger Look(m', t)} {:trigger Look(m, t)} :: t !in x ==> Look(m', t) == Look(m, t)
  }

  /** Nor did any wait queue. */
  ghost predicate Quiet(s: Sched, s': Sched, x: set<Tid>) {
    Same(s.threads, s'.threads, x) && s'.waits == s.waits
  }

  /** Exactly the threads of q were made active, with wait result err. */
  ghost predicate Woken(m: Threads, m': Threads, q: seq<Tid>, err: int) {
    forall t {:trigger Look(m', t)} {:trigger Look(m, t)} ::
      Look(m', t) == if t in q then View(Active, None, err) else Look(m, t)
  }

  ghost predicate Emptied(waits: Waits, waits': Waits, w: WaitQueueId) {
    forall v {:trigger Queue(waits', v)} {:trigger Queue(waits, v)} ::
      Queue(waits', v) == if v == w then [] else Queue(waits, v)
  }

  lemma WokenBetween(m0: Threads, m1: Threads, m2: Threads, m3: Threads, q: seq<Tid>, err: int)
    requires Same(m0, m1, {}) && Woken(m1, m2, q, err) && Same(m2, m3, {})
    ensures Woken(m0, m3, q, err)
  {
  }

  lemma PutLook(m: Threads, t: Tid, r: Thread)
    ensures Look(m[t := r], t) == View(KindOf(r.state), r.blockedOn, r.blockRet)
    ensures Same(m, m[t := r], {t})
  {
  }

  lemma ReschedLook(s: Sched)
    requires RunOk(s.threads, s.run, {})
    ensures Quiet(s, Resched(s), {})
  {
    var p := Top(s.run, 31);
    if 0 <= p {
      var t := s.run[p][0];
      assert t in s.run[p];
      PutLook(s.threads, t, At(Resched(s), t));
    }
  }

  lemma YieldLook(s: Sched)
    requires Inv(s)
    ensures Quiet(s, Yield(s), {})
  {
    var r := At(s, s.current).(state := Ready, quantum := 0);
    PutLook(s.threads, s.current, r);
    Loosen(s, {}, s.current, r);
    PushTailOk(Put(s, s.current, r), {s.current}, s.current);
    assert {s.current} - {s.current} == {};
    ReschedLook(PushTail(Put(s, s.current, r), s.current));
  }

  lemma PreemptLook(s: Sched)
    requires Inv(s)
    ensures Quiet(s, Preempt(s), {})
  {
    var r := At(s, s.current).(state := Ready);
    var s1 := Put(s, s.current, r);
    PutLook(s.threads, s.current, r);
    Loosen(s, {}, s.current, r);
    assert {s.current} - {s.current} == {};
    PushHeadOk(s1, {s.current}, s.current);
    PushTailOk(s1, {s.current}, s.current);
    ReschedLook(PushHead(s1, s.current));
    ReschedLook(PushTail(s1, s.current));
  }

  lemma ResumeLook(s: Sched, t: Tid)
    requires Inv(s) && At(s, t).state in {Suspended, Ready, Running}
    ensures Quiet(s, ResumeThread(s, t), {t})
    ensures Look(ResumeThread(s, t).threads, t) == Look(s.threads, t).(kind := Active)
  {
    if At(s, t).state == Suspended {
      PutLook(s.threads, t, At(s, t).(state := Ready));
      ReadyOk(s, t);
      YieldLook(PushHead(SetState(s, t, Ready), t));
    }
  }

  lemma RetireLook(s: Sched, st: ThreadState)
    requires Inv(s) && s.current != BOOT && st in {Sleeping, Death}
    ensures Quiet(s, Retire(s, st), {s.current})
    ensures Look(Retire(s, st).threads, s.current) == Look(s.threads, s.current).(kind := KindOf(st))
  {
    var r := At(s, s.current).(state := st);
    PutLook(s.threads, s.current, r);
    Loosen(s, {}, s.current, r);
    Tighten(Put(s, s.current, r), {s.current}, s.current);
    assert {s.current} - {s.current} == {};
    ReschedLook(Put(s, s.current, r));
  }

  lemma RunningUpdateLook(s: Sched, r: Thread)
    requires Look(s.threads, s.current) == View(KindOf(r.state), r.blockedOn, r.blockRet)
    ensures Quiet(s, Put(s, s.current, r), {})
  {
    PutLook(s.threads, s.current, r);
  }

  lemma BlockLook(s: Sched, w: WaitQueueId)
    requires Inv(s) && s.current != BOOT
    ensures Same(s.threads, Block(s, w).threads, {s.current})
    ensures Look(Block(s, w).threads, s.current) == View(Parked, Some(w), NO_ERROR)
    ensures forall v :: Waiting(Block(s, w), v) == Waiting(s, v) + if v == w then [s.current] else []
  {
    var r := At(s, s.current).(state := Blocked, blockedOn := Some(w), blockRet := NO_ERROR);
    PutLook(s.threads, s.current, r);
    ParkOk(s, w);
    ReschedLook(Park(s, w));
  }

  lemma DetachLook(s: Sched, w: WaitQueueId, t: Tid, err: int)
    ensures Same(s.threads, Detach(s, w, t, err).threads, {t})
    ensures Look(Detach(s, w, t, err).threads, t) == View(Active, None, err)
  {
    PutLook(s.threads, t, At(s, t).(state := Ready, blockedOn := None, blockRet := err));
  }

  lemma RequeueHeadLook(s: Sched)
    requires At(s, s.current).state == Running
    ensures Quiet(s, RequeueHead(s), {})
  {
    PutLook(s.threads, s.current, At(s, s.current).(state := Ready));
  }

  /** Putting the current thread and then t at the head and rescheduling changes no view. */
  lemma SwitchToLook(s: Sched, t: Tid)
    requires Wf(s, {t}) && At(s, t).state == Ready
    requires At(s, s.current).state == Running && s.current != t
    ensures Quiet(s, Resched(PushHead(RequeueHead(s), t)), {})
  {
    RequeueHeadOk(s, {t});
    RequeueHeadLook(s);
    PushHeadOk(RequeueHead(s), {t}, t);
    assert {t} - {t} == {};
    ReschedLook(PushHead(RequeueHead(s), t));
  }

  /** Exactly the longest waiter is woken, with the waker's error. */
  lemma WakeOneLook(s: Sched, w: WaitQueueId, resched: bool, err: int)
    requires Inv(s) && Waiting(s, w) != []
    ensures var t := Waiting(s, w)[0]; var s' := WakeOne(s, w, resched, err);
            && Same(s.threads, s'.threads, {t})
            && Look(s'.threads, t) == View(Active, None, err)
            && forall v :: Queue(s'.waits, v) == if v == w then Queue(s.waits, w)[1..] else Queue(s.waits, v)
  {
    var t := Waiting(s, w)[0];
    assert t in Waiting(s, w);
    var s1 := Detach(s, w, t, err);
    DetachLook(s, w, t, err);
    DetachOk(s, {}, w, t, err);
    assert {} + {t} == {t};
    assert Without(Waiting(s, w), t) == Waiting(s, w)[1..];
    assert s.current != t;
    SwitchToLook(s1, t);
  }

  /** Every waiter is woken with the waker's error, and nobody else is touched. */
  lemma {:induction false} DrainLook(s: Sched, w: WaitQueueId, err: int)
    requires Wf(s, {})
    ensures Woken(s.threads, Drain(s, w, err).threads, Waiting(s, w), err)
    ensures Emptied(s.waits, Drain(s, w, err).waits, w)
    decreases |Waiting(s, w)|
  {
    if Waiting(s, w) != [] {
      var t := Waiting(s, w)[0];
      assert t in Waiting(s, w);
      var s1 := PushHead(Detach(s, w, t, err), t);
      UnparkOk(s, {}, w, t, err);
      DetachLook(s, w, t, err);
      Basics.PopFacts(Waiting(s, w));
      DrainLook(s1, w, err);
    }
  }

  lemma RequeueDrainLook(s: Sched, w: WaitQueueId, err: int)
    requires Inv(s)
    ensures Woken(s.threads, Resched(Drain(RequeueHead(s), w, err)).threads, Waiting(s, w), err)
    ensures Emptied(s.waits, Resched(Drain(RequeueHead(s), w, err)).waits, w)
  {
    var s1 := RequeueHead(s);
    RequeueHeadOk(s, {});
    RequeueHeadLook(s);
    assert s1.waits == s.waits;
    DrainLook(s1, w, err);
    DrainOk(s1, w, err);
    ReschedLook(Drain(s1, w, err));
    WokenBetween(s.threads, s1.threads, Drain(s1, w, err).threads, Resched(Drain(s1, w, err)).threads, Waiting(s, w), err);
  }

  lemma WakeAllLook(s: Sched, w: WaitQueueId, resched: bool, err: int)
    requires Inv(s)
    ensures Woken(s.threads, WakeAll(s, w, resched, err).threads, Waiting(s, w), err)
    ensures Emptied(s.waits, WakeAll(s, w, resched, err).waits, w)
  {
    if resched && Waiting(s, w) != [] {
      RequeueDrainLook(s, w, err);
    } else {
      DrainLook(s, w, err);
    }
  }

  /** A timeout wakes its thread if it is still queued, and otherwise changes nothing at all. */
  lemma UnblockLook(s: Sched, t: Tid, err: int)
    requires Inv(s)
    ensures Look(s.threads, t).kind != Parked ==> Unblock(s, t, err) == s
    ensures Look(s.threads, t).kind == Parked ==>
              var w := Look(s.threads, t).on; var s' := Unblock(s, t, err);
              && Same(s.threads, s'.threads, {t})
              && Look(s'.threads, t) == View(Active, None, err)
              && forall v :: Waiting(s', v) == if Some(v) == w then Without(Waiting(s, v), t) else Waiting(s, v)
  {
    match At(s, t)
    case Thread(_, Blocked, _, Some(w), _) =>
      DetachLook(s, w, t, err);
      DetachOk(s, {}, w, t, err);
    case _ =>
  }
}
