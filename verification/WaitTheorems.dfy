/**
 Every call of wait_queue_block that blocks is ended by exactly one wake-up, and returns the
 value of that wake-up whatever else happens before the thread runs again.
 */
module WaitTheorems {
  import opened Basics
  import opened Scheduler
  import opened SchedulerInv
  import opened SchedulerEffects
  import opened TimerQueue
  import opened KernelModel
  import opened KernelInv
  import opened KernelSteps
  import opened KernelViews

  /** Did the call of thread t return in this run? */
  predicate Returned(k: Kernel, run: seq<Step>, t: Tid) {
    run != [] &&
    var before := run[..|run| - 1];
    Returned(k, before, t) || (run[|run| - 1].Return? && After(k, before).s.current == t)
  }

  ghost predicate IsParked(k: Kernel, t: Tid) {
    Look(k.s.threads, t).kind == Parked
  }

  /** The steps of the run that took t off its wait queue. */
  ghost function Wakers(k: Kernel, run: seq<Step>, t: Tid): seq<Step> {
    if run == [] then [] else
      var before := run[..|run| - 1];
      Wakers(k, before, t)
      + if IsParked(After(k, before), t) && !IsParked(After(k, run), t) then [run[|run| - 1]] else []
  }

  /** One step, for a thread inside a call: still parked where it was, or woken by a step that may,
      with that step's value; a thread already woken keeps its value until it runs. */
  lemma CallStep(k: Kernel, st: Step, t: Tid)
    requires KInv(k) && Enabled(k, st) && t in k.inWait && !(st.Return? && k.s.current == t)
    ensures var k' := Apply(k, st);
            && t in k'.inWait && k'.inWait[t] == k.inWait[t]
            && (Look(k'.s.threads, t) == Look(k.s.threads, t)
                || (IsParked(k, t) && MayWake(st, k.inWait[t])
                    && Look(k'.s.threads, t) == View(Active, None, WakeValue(st))))
  {
    hide KInv, Apply, Enabled, Look, JoinedQueue;
    StepWaked(k, st);
    StepCalls(k, st);
    if JoinedQueue(k, st).Some? {
      Joiner(k, st);
    }
  }

  lemma Joiner(k: Kernel, st: Step)
    requires KInv(k) && Enabled(k, st) && JoinedQueue(k, st).Some?
    ensures k.s.current !in k.inWait
  {
  }

  /** Until the call returns there is at most one waker; before it the thread is parked on its
      queue, after it the result is the waker's value, and timers firing late change nothing. */
  lemma {:induction false} WokenExactlyOnce(k: Kernel, run: seq<Step>, t: Tid)
    requires KInv(k) && Legal(k, run) && t in k.inWait && IsParked(k, t) && !Returned(k, run, t)
    ensures var k' := After(k, run);
            && KInv(k') && t in k'.inWait && k'.inWait[t] == k.inWait[t]
            && |Wakers(k, run, t)| <= 1
            && (Wakers(k, run, t) == [] <==> IsParked(k', t))
            && (Wakers(k, run, t) != [] ==>
                  MayWake(Wakers(k, run, t)[0], k.inWait[t])
                  && Look(k'.s.threads, t) == View(Active, None, WakeValue(Wakers(k, run, t)[0])))
  {
    hide KInv, Apply, Enabled, Look;
    if run != [] {
      var before, st := run[..|run| - 1], run[|run| - 1];
      WokenExactlyOnce(k, before, t);
      StepKeepsInv(After(k, before), st);
      CallStep(After(k, before), st, t);
    }
  }

  /** While parked the thread is on exactly the queue its call named, once woken on no wait queue. */
  lemma ParkedWhere(k: Kernel, t: Tid)
    requires KInv(k) && t in k.inWait
    ensures IsParked(k, t) ==> forall w :: t in Waiting(k.s, w) <==> w == k.inWait[t].w
    ensures !IsParked(k, t) ==> forall w :: t !in Waiting(k.s, w)
  {
    QueuesFollowState(k.s, t);
    hide Inv;
  }

  /** What the caller of wait_queue_block gets back is the recorded wake-up value. */
  lemma TimedOutAcquireBacksOut(k: Kernel, u: nat)
    requires KInv(k) && k.s.current in k.inWait && k.inWait[k.s.current].w == OfMutex(u)
    ensures u in k.mutexes && u in Finish(k).mutexes
    ensures At(k.s, k.s.current).blockRet == ERR_TIMED_OUT ==>
              Finish(k).mutexes[u] == Mutex(k.mutexes[u].count - 1, k.mutexes[u].holder)
    ensures At(k.s, k.s.current).blockRet != ERR_TIMED_OUT ==>
              Finish(k).mutexes[u] == Mutex(k.mutexes[u].count, Some(k.s.current))
  {
    hide KInv, Remove;
    CurrentFacts(k);
    ReturnValue(k, u);
  }

  /** A thread back from waiting for a mutex was handed it, or timed out. */
  lemma ReturnValue(k: Kernel, u: nat)
    requires KInv(k) && k.s.current in k.inWait && k.inWait[k.s.current].w == OfMutex(u)
    ensures u in k.mutexes
    ensures Look(k.s.threads, k.s.current).kind == Active ==>
              || Look(k.s.threads, k.s.current).ret == NO_ERROR
              || (Look(k.s.threads, k.s.current).ret == ERR_TIMED_OUT && k.inWait[k.s.current].timed)
  {
    hide Inv, CallsOk, ObjectsOk, TimersOk, DpcOk, Look;
  }
}
