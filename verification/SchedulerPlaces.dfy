/**
 Who runs after each transition of the scheduler, and where on the run queues everybody else
 is. The view lemmas of SchedulerEffects do not tell ready from running; these do.
 */
module SchedulerPlaces {
  import opened Basics
  import opened Scheduler
  import opened SchedulerInv
  import opened SchedulerEffects

  /** s runs the head of the highest nonempty queue of run, and holds the rest of run. */
  ghost predicate Runs(s: Sched, run: RunQueues) {
    exists p: Priority :: run[p] != [] && (forall q: Priority :: p < q ==> run[q] == [])
                          && s.current == run[p][0] && s.run == run[p := run[p][1..]]
  }

  function MyPriority(s: Sched): Priority {
    At(s, s.current).priority
  }

  /** The highest nonempty queue decides. */
  lemma RunsHead(s: Sched, run: RunQueues, p: Priority)
    requires Runs(s, run) && run[p] != [] && forall q: Priority :: p < q ==> run[q] == []
    ensures s.current == run[p][0] && s.run == run[p := run[p][1..]]
  {
    var r: Priority :| run[r] != [] && (forall q: Priority :: r < q ==> run[q] == [])
                       && s.current == run[r][0] && s.run == run[r := run[r][1..]];
    assert r == p;
  }

  lemma ReschedRuns(s: Sched, t: Tid)
    requires t in s.run[At(s, t).priority]
    ensures Runs(Resched(s), s.run)
  {
    var p := Top(s.run, 31);
    assert 0 <= p;
  }

  /** No queue above the running thread's has anyone in it. */
  lemma NothingAbove(s: Sched)
    requires Inv(s) && AtTop(s)
    ensures forall q: Priority :: MyPriority(s) < q ==> s.run[q] == []
  {
    forall q: Priority | MyPriority(s) < q
      ensures s.run[q] == []
    {
      HeadIsReady(s, q);
    }
  }

  lemma HeadIsReady(s: Sched, q: Priority)
    requires RunOk(s.threads, s.run, {})
    ensures s.run[q] != [] ==> At(s, s.run[q][0]).state == Ready && At(s, s.run[q][0]).priority == q
  {
    if s.run[q] != [] {
      assert s.run[q][0] in s.run[q];
    }
  }

  // ---------- the running thread steps back ----------

  lemma YieldPlaces(s: Sched)
    requires Inv(s)
    ensures var p := MyPriority(s); Runs(Yield(s), s.run[p := s.run[p] + [s.current]])
  {
    hide Inv, Resched, Runs;
    var s1 := PushTail(Put(s, s.current, At(s, s.current).(state := Ready, quantum := 0)), s.current);
    ReschedRuns(s1, s.current);
  }

  /** With time left the preempted thread goes to the head of its queue, without to the tail. */
  lemma PreemptPlaces(s: Sched)
    requires Inv(s)
    ensures var p := MyPriority(s);
            && (At(s, s.current).quantum > 0 ==> Runs(Preempt(s), s.run[p := [s.current] + s.run[p]]))
            && (At(s, s.current).quantum <= 0 ==> Runs(Preempt(s), s.run[p := s.run[p] + [s.current]]))
  {
    hide Inv, Resched, Runs;
    var s1 := SetState(s, s.current, Ready);
    ReschedRuns(PushHead(s1, s.current), s.current);
    ReschedRuns(PushTail(s1, s.current), s.current);
  }

  /** Nobody more urgent being ready, a thread with time left runs on, and one without gives way to
      the next of its priority, behind all of which it queues. */
  lemma PreemptGivesWay(s: Sched)
    requires Inv(s) && AtTop(s)
    ensures var (s', c, p) := (Preempt(s), s.current, MyPriority(s));
            && (At(s, c).quantum > 0 || s.run[p] == [] ==> s'.current == c && s'.run == s.run)
            && (At(s, c).quantum <= 0 && s.run[p] != [] ==>
                  s'.current == s.run[p][0] && s'.run == s.run[p := s.run[p][1..] + [c]])
  {
    hide Inv, Runs, Preempt;
    var c, p := s.current, MyPriority(s);
    PreemptPlaces(s);
    NothingAbove(s);
    var back, away := [c] + s.run[p], s.run[p] + [c];
    if At(s, c).quantum > 0 {
      RunsHead(Preempt(s), s.run[p := back], p);
      assert back[1..] == s.run[p];
      assert s.run[p := back][p := s.run[p]] == s.run;
    } else {
      RunsHead(Preempt(s), s.run[p := away], p);
      assert s.run[p := away][p := away[1..]] == s.run[p := away[1..]];
      if s.run[p] == [] {
        assert away[1..] == [] == s.run[p];
        assert s.run[p := s.run[p]] == s.run;
      } else {
        assert away[1..] == s.run[p][1..] + [c];
      }
    }
  }

  /** Somebody more urgent being ready, the first of the most urgent runs, and the preempted thread
      is at the head of its queue if it has time left, at the tail if not. */
  lemma PreemptYieldsUp(s: Sched, top: Priority)
    requires Inv(s) && MyPriority(s) < top && s.run[top] != [] && forall q: Priority :: top < q ==> s.run[q] == []
    ensures var (s', c, p) := (Preempt(s), s.current, MyPriority(s));
            && s'.current == s.run[top][0] && s'.run[top] == s.run[top][1..]
            && s'.run[p] == (if At(s, c).quantum > 0 then [c] + s.run[p] else s.run[p] + [c])
            && forall q: Priority :: q != top && q != p ==> s'.run[q] == s.run[q]
  {
    hide Inv, Runs, Preempt;
    var c, p := s.current, MyPriority(s);
    PreemptPlaces(s);
    if At(s, c).quantum > 0 {
      RunsHead(Preempt(s), s.run[p := [c] + s.run[p]], top);
    } else {
      RunsHead(Preempt(s), s.run[p := s.run[p] + [c]], top);
    }
  }

  lemma RetirePlaces(s: Sched, st: ThreadState)
    requires Inv(s) && s.current != BOOT && st in {Sleeping, Death}
    ensures Runs(Retire(s, st), s.run)
  {
    RetiredOk(s, st);
    SwitchableRuns(SetState(s, s.current, st));
  }

  lemma BlockPlaces(s: Sched, w: WaitQueueId)
    requires Inv(s) && s.current != BOOT
    ensures Runs(Block(s, w), s.run)
  {
    ParkOk(s, w);
    SwitchableRuns(Park(s, w));
  }

  lemma SwitchableRuns(s: Sched)
    requires Switchable(s)
    ensures Runs(Resched(s), s.run)
  {
    hide WaitsOk, ThreadsOk, Resched, Runs;
    assert BOOT in s.run[At(s, BOOT).priority];
    ReschedRuns(s, BOOT);
  }

  // ---------- others become ready ----------

  /** Both the resumed thread and the caller are put on their queues, the caller at the tail. */
  lemma ResumePlaces(s: Sched, t: Tid)
    requires Inv(s) && At(s, t).state == Suspended
    ensures var (p, c) := (At(s, t).priority, MyPriority(s));
            var run := s.run[p := [t] + s.run[p]];
            Runs(ResumeThread(s, t), run[c := run[c] + [s.current]])
  {
    hide Yield, Runs;
    ReadyOk(s, t);
    YieldPlaces(PushHead(SetState(s, t, Ready), t));
  }

  /** A resumed thread that is at least as urgent runs at once; a less urgent one waits at the head of
      its queue, while the caller still takes its turn behind its equals. */
  lemma ResumeHandsOver(s: Sched, t: Tid)
    requires Inv(s) && AtTop(s) && At(s, t).state == Suspended
    ensures var (s', c, p, q) := (ResumeThread(s, t), s.current, MyPriority(s), At(s, t).priority);
            && (q >= p ==> s'.current == t && s'.run == s.run[p := s.run[p] + [c]])
            && (q < p ==> [s'.current] + s'.run[p] == s.run[p] + [c] && s'.run[q] == [t] + s.run[q]
                          && forall r: Priority :: r != p && r != q ==> s'.run[r] == s.run[r])
  {
    hide Inv, Runs, ResumeThread;
    var c, p, q := s.current, MyPriority(s), At(s, t).priority;
    ResumePlaces(s, t);
    NothingAbove(s);
    var run := s.run[q := [t] + s.run[q]];
    var all := run[p := run[p] + [c]];
    if q >= p {
      RunsHead(ResumeThread(s, t), all, q);
      if q > p {
        assert all[q][1..] == [] == s.run[q];
      } else {
        assert all[q][1..] == s.run[p] + [c];
      }
      assert all[q := all[q][1..]] == s.run[p := s.run[p] + [c]];
    } else {
      RunsHead(ResumeThread(s, t), all, p);
      assert all[p] == [all[p][0]] + all[p][1..];
    }
  }

  /** Woken without reschedule, or by a timer: at the head of its queue, and the running thread runs on. */
  ghost predicate AtHead(s: Sched, s': Sched, t: Tid) {
    var p := At(s, t).priority;
    s'.current == s.current && s'.run == s.run[p := [t] + s.run[p]]
  }

  lemma SleepWakePlaces(s: Sched, t: Tid)
    ensures AtHead(s, SleepWake(s, t), t)
  {
  }

  lemma UnblockPlaces(s: Sched, t: Tid, err: int)
    requires Inv(s)
    ensures Look(s.threads, t).kind == Parked ==> AtHead(s, Unblock(s, t, err), t)
  {
  }

  /** A waker that reschedules puts itself at the head of its queue first, and the woken thread ahead of it. */
  lemma WakeOnePlaces(s: Sched, w: WaitQueueId, resched: bool, err: int)
    requires Inv(s) && Waiting(s, w) != []
    ensures var (t, s', c) := (Waiting(s, w)[0], WakeOne(s, w, resched, err), MyPriority(s));
            && (!resched ==> AtHead(s, s', t))
            && (resched ==>
                  var run := s.run[c := [s.current] + s.run[c]]; var p := At(s, t).priority;
                  Runs(s', run[p := [t] + run[p]]))
  {
    var t := Waiting(s, w)[0];
    assert t in Waiting(s, w);
    assert At(s, t).state == Blocked && t != s.current;
    hide Inv, Resched, Runs, Without;
    var s2 := PushHead(RequeueHead(Detach(s, w, t, err)), t);
    ReschedRuns(s2, t);
  }

  /** Waking with reschedule: a thread at least as urgent as its waker runs at once, the waker ready
      right behind it; a less urgent one waits at the head of its queue and the waker runs on. */
  lemma WakeOneHandsOver(s: Sched, w: WaitQueueId, err: int)
    requires Inv(s) && AtTop(s) && Waiting(s, w) != []
    ensures var (t, s', c, p) := (Waiting(s, w)[0], WakeOne(s, w, true, err), s.current, MyPriority(s));
            && (At(s, t).priority >= p ==> s'.current == t && s'.run == s.run[p := [c] + s.run[p]])
            && (At(s, t).priority < p ==> AtHead(s, s', t))
  {
    hide Inv, Runs, WakeOne;
    var t, c, p := Waiting(s, w)[0], s.current, MyPriority(s);
    var q := At(s, t).priority;
    WakeOnePlaces(s, w, true, err);
    NothingAbove(s);
    var run := s.run[p := [c] + s.run[p]];
    var all := run[q := [t] + run[q]];
    if q >= p {
      RunsHead(WakeOne(s, w, true, err), all, q);
      assert all[q := all[q][1..]] == run;
    } else {
      RunsHead(WakeOne(s, w, true, err), all, p);
      assert all[p := all[p][1..]] == s.run[q := [t] + s.run[q]];
    }
  }

  // ---------- everybody wakes ----------

  /** The members of q of priority p, last first. */
  function LastFirst(s: Sched, q: seq<Tid>, p: Priority): seq<Tid> {
    if q == [] then []
    else LastFirst(s, q[1..], p) + if At(s, q[0]).priority == p then [q[0]] else []
  }

  lemma {:induction false} LastFirstFrame(s: Sched, s': Sched, q: seq<Tid>, p: Priority)
    requires forall t :: t in q ==> At(s', t).priority == At(s, t).priority
    ensures LastFirst(s', q, p) == LastFirst(s, q, p)
  {
    if q != [] {
      LastFirstFrame(s, s', q[1..], p);
    }
  }

  /** The draining loop puts each waiter ahead of those woken before it. */
  lemma {:induction false} DrainPlaces(s: Sched, w: WaitQueueId, err: int, p: Priority)
    requires Wf(s, {})
    ensures Drain(s, w, err).current == s.current
    ensures Drain(s, w, err).run[p] == LastFirst(s, Waiting(s, w), p) + s.run[p]
    decreases |Waiting(s, w)|
  {
    hide Wf, Drain, LastFirst;
    if Waiting(s, w) == [] {
      DrainNobody(s, w, err, p);
    } else {
      var q := Waiting(s, w);
      var t := q[0];
      var s1 := PushHead(Detach(s, w, t, err), t);
      Unparked(s, w, err);
      DrainUnfold(s, w, err);
      DrainPlaces(s1, w, err, p);
      LastFirstFrame(s, s1, q[1..], p);
      LastFirstUnfold(s, q, p);
      var one: seq<Tid> := if At(s, t).priority == p then [t] else [];
      assert s1.run[p] == one + s.run[p];
      assert LastFirst(s, q[1..], p) + (one + s.run[p]) == LastFirst(s, q, p) + s.run[p];
    }
  }

  lemma LastFirstUnfold(s: Sched, q: seq<Tid>, p: Priority)
    requires q != []
    ensures LastFirst(s, q, p) == LastFirst(s, q[1..], p) + if At(s, q[0]).priority == p then [q[0]] else []
  {
  }

  lemma DrainNobody(s: Sched, w: WaitQueueId, err: int, p: Priority)
    requires Waiting(s, w) == []
    ensures Drain(s, w, err) == s && LastFirst(s, Waiting(s, w), p) == []
  {
  }

  /** One turn of the draining loop. */
  lemma Unparked(s: Sched, w: WaitQueueId, err: int)
    requires Wf(s, {}) && Waiting(s, w) != []
    ensures var t := Waiting(s, w)[0]; var s1 := PushHead(Detach(s, w, t, err), t); var p := At(s, t).priority;
            && Wf(s1, {}) && Waiting(s1, w) == Waiting(s, w)[1..] && s1.current == s.current
            && s1.run == s.run[p := [t] + s.run[p]]
            && forall u :: At(s1, u).priority == At(s, u).priority
  {
    hide RunOk, WaitsOk, ThreadsOk;
    var t := Waiting(s, w)[0];
    assert t in Waiting(s, w);
    UnparkOk(s, {}, w, t, err);
  }

  lemma DrainUnfold(s: Sched, w: WaitQueueId, err: int)
    requires Waiting(s, w) != []
    ensures var t := Waiting(s, w)[0]; Drain(s, w, err) == Drain(PushHead(Detach(s, w, t, err), t), w, err)
  {
  }

  /** Each run queue after everyone on w was put ahead of it, and the caller, if it steps back, between them. */
  ghost function Refilled(s: Sched, w: WaitQueueId, back: bool): RunQueues {
    seq(32, p requires 0 <= p < 32 =>
              LastFirst(s, Waiting(s, w), p) + (if back && p == MyPriority(s) then [s.current] else []) + s.run[p])
  }

  /** Waking everyone: the last to queue up comes first, of each priority. */
  lemma WakeAllPlaces(s: Sched, w: WaitQueueId, resched: bool, err: int)
    requires Inv(s)
    ensures var s' := WakeAll(s, w, resched, err);
            && (resched && Waiting(s, w) != [] ==> Runs(s', Refilled(s, w, true)))
            && (!resched || Waiting(s, w) == [] ==> s'.current == s.current && s'.run == Refilled(s, w, false))
  {
    hide Inv, Runs, Refilled, Drain;
    if resched && Waiting(s, w) != [] {
      RequeueDrainPlaces(s, w, err);
    } else {
      DrainHerePlaces(s, w, err);
    }
  }

  lemma RequeueDrainPlaces(s: Sched, w: WaitQueueId, err: int)
    requires Inv(s)
    ensures Runs(Resched(Drain(RequeueHead(s), w, err)), Refilled(s, w, true))
  {
    hide Inv, Switchable, Wf, Resched, Runs, Drain, RequeueHead, Refilled;
    DrainedOk(s, w, err);
    forall p: Priority
      ensures Drain(RequeueHead(s), w, err).run[p] == Refilled(s, w, true)[p]
    {
      RefilledAt(s, w, err, p);
    }
    assert Drain(RequeueHead(s), w, err).run == Refilled(s, w, true);
    SwitchableRuns(Drain(RequeueHead(s), w, err));
  }

  lemma RefilledAt(s: Sched, w: WaitQueueId, err: int, p: Priority)
    requires Inv(s)
    ensures Drain(RequeueHead(s), w, err).run[p] == Refilled(s, w, true)[p]
  {
    hide Inv, Wf, Drain, RequeueHead, LastFirst;
    var s1 := RequeueHead(s);
    RequeueFacts(s);
    DrainPlaces(s1, w, err, p);
    LastFirstFrame(s, s1, Waiting(s, w), p);
    var mine: seq<Tid> := if p == MyPriority(s) then [s.current] else [];
    assert s1.run[p] == mine + s.run[p];
    assert LastFirst(s, Waiting(s, w), p) + (mine + s.run[p]) == LastFirst(s, Waiting(s, w), p) + mine + s.run[p];
  }

  lemma RequeueFacts(s: Sched)
    requires Inv(s)
    ensures var s1 := RequeueHead(s); var p := MyPriority(s);
            && Wf(s1, {}) && s1.waits == s.waits && s1.run == s.run[p := [s.current] + s.run[p]]
            && forall u :: At(s1, u).priority == At(s, u).priority
  {
    hide RunOk, WaitsOk, ThreadsOk;
    RequeueHeadOk(s, {});
  }

  lemma DrainHerePlaces(s: Sched, w: WaitQueueId, err: int)
    requires Inv(s)
    ensures Drain(s, w, err).current == s.current && Drain(s, w, err).run == Refilled(s, w, false)
  {
    hide Wf, Drain, LastFirst;
    forall p: Priority
      ensures Drain(s, w, err).run[p] == Refilled(s, w, false)[p]
    {
      DrainPlaces(s, w, err, p);
    }
    DrainPlaces(s, w, err, 0);
    assert Drain(s, w, err).run == Refilled(s, w, false);
  }

  /** Waking everyone with reschedule: if the most urgent of them is at least as urgent as the waker,
      the last of those to queue up runs; otherwise the waker runs on. */
  lemma WakeAllHandsOver(s: Sched, w: WaitQueueId, err: int, top: Priority)
    requires Inv(s) && AtTop(s) && Waiting(s, w) != []
    requires LastFirst(s, Waiting(s, w), top) != []
    requires forall q: Priority :: top < q ==> LastFirst(s, Waiting(s, w), q) == []
    ensures var s' := WakeAll(s, w, true, err);
            s'.current == if top >= MyPriority(s) then LastFirst(s, Waiting(s, w), top)[0] else s.current
  {
    hide Inv, Runs, WakeAll, LastFirst;
    WakeAllPlaces(s, w, true, err);
    NothingAbove(s);
    var all := Refilled(s, w, true);
    if top >= MyPriority(s) {
      assert all[top][0] == LastFirst(s, Waiting(s, w), top)[0];
      RunsHead(WakeAll(s, w, true, err), all, top);
    } else {
      assert all[MyPriority(s)][0] == s.current;
      RunsHead(WakeAll(s, w, true, err), all, MyPriority(s));
    }
  }
}
