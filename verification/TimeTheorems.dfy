/**
 A sleep and a timed wait last as long as they were asked to: the tick that ends one has
 reached the time it was armed for, and the first tick that has reached it does end it.
 */
module TimeTheorems {
  import opened Basics
  import opened Scheduler
  import opened SchedulerInv
  import opened SchedulerEffects
  import opened TimerQueue
  import opened KernelModel
  import opened KernelInv
  import opened KernelSteps
  import opened KernelViews
  import opened WaitTheorems

  // ---------- the queue ----------

  /** Is the timer armed for a time that has come? */
  ghost predicate DueBy<T(!new)>(q: seq<Entry<T>>, now: int, who: T) {
    exists e :: e in q && e.who == who && e.due <= now
  }

  lemma DueByHas<T(!new)>(q: seq<Entry<T>>, who: T)
    ensures forall now :: DueBy(q, now, who) ==> Has(q, who)
  {
    forall now | DueBy(q, now, who)
      ensures Has(q, who)
    {
      var e :| e in q && e.who == who && e.due <= now;
      HasMember(q, e);
    }
  }

  lemma DueByCons<T(!new)>(h: Entry<T>, q: seq<Entry<T>>, now: int, who: T)
    ensures DueBy([h] + q, now, who) <==> (h.who == who && h.due <= now) || DueBy(q, now, who)
  {
    var r := [h] + q;
    assert forall e :: e in r <==> e == h || e in q;
    if h.who == who && h.due <= now {
      assert h in r;
    }
    if DueBy(q, now, who) {
      var e :| e in q && e.who == who && e.due <= now;
      assert e in r;
    }
  }

  /** A timer is queued for one time only. */
  lemma OneDue<T(!new)>(q: seq<Entry<T>>, now: int, e: Entry<T>)
    requires Unique(q) && e in q
    ensures DueBy(q, now, e.who) <==> e.due <= now
  {
    if DueBy(q, now, e.who) {
      var x :| x in q && x.who == e.who && x.due <= now;
      var i :| 0 <= i < |q| && q[i] == x;
      var j :| 0 <= j < |q| && q[j] == e;
      assert i == j;
    }
  }

  // ---------- what a step does to the queue of timers ----------

  /** The timer this step arms, if any. */
  function Arms(k: Kernel, st: Step): Option<Entry<Target>> {
    match st
    case Sleep(now, delay) => Some(Entry(now + delay, SleepWake(k.s.current)))
    case Acquire(_, now, Some(d)) => if Blocks(k, st) then Some(Entry(now + d, WaitTimeout(k.s.current))) else None
    case EventWait(_, now, Some(d)) => if Blocks(k, st) then Some(Entry(now + d, WaitTimeout(k.s.current))) else None
    case _ => None
  }

  /** A timer stays queued until it is due, or its wait returns. */
  predicate Spares(k: Kernel, st: Step, e: Entry<Target>) {
    match st
    case Tick(now) => now < e.due
    case Return => e.who != WaitTimeout(k.s.current)
    case _ => true
  }

  lemma {:induction false} FireDueTimers(k: Kernel, now: int, e: Entry<Target>)
    requires Sorted(k.timers)
    ensures e in FireDue(k, now).timers <==> e in k.timers && now < e.due
    decreases |k.timers|
  {
    hide Fire;
    if k.timers != [] {
      var h, rest := k.timers[0], k.timers[1..];
      assert k.timers == [h] + rest;
      ConsFacts(h, rest);
      if h.due <= now {
        FireDueTimers(k.(timers := rest, s := Fire(k.s, h.who)), now, e);
      }
    }
  }

  /** The queued timers after any step: those spared, and the one armed. */
  lemma PendingStep(k: Kernel, st: Step, e: Entry<Target>)
    requires KInv(k) && Enabled(k, st)
    ensures e in Apply(k, st).timers <==> (e in k.timers && Spares(k, st, e)) || Arms(k, st) == Some(e)
  {
    hide KInv;
    TimersFacts(k);
    if IsThreadStep(st) {
      PendingThreadStep(k, st, e);
    } else {
      PendingObjectStep(k, st, e);
    }
  }

  lemma PendingThreadStep(k: Kernel, st: Step, e: Entry<Target>)
    requires KInv(k) && Sorted(k.timers) && Enabled(k, st) && IsThreadStep(st)
    ensures e in Apply(k, st).timers <==> (e in k.timers && Spares(k, st, e)) || Arms(k, st) == Some(e)
  {
    hide KInv, Retire, Resched, WakeAll, FireDue, Charge, Scheduler.Preempt, Scheduler.Yield, ResumeThread, Insert, Finish,
      Sorted;
    match st
    case Tick(now) => FireDueTimers(k, now, e);
    case Return => ReturnTimers(k, e);
    case Sleep(now, delay) => InsertMembers(k.timers, Arms(k, st).value);
    case _ =>
  }

  lemma PendingObjectStep(k: Kernel, st: Step, e: Entry<Target>)
    requires Enabled(k, st) && !IsThreadStep(st)
    ensures e in Apply(k, st).timers <==> (e in k.timers && Spares(k, st, e)) || Arms(k, st) == Some(e)
  {
    hide Block, WakeOne, WakeAll, Insert;
    if Arms(k, st).Some? {
      InsertMembers(k.timers, Arms(k, st).value);
    }
  }

  lemma ReturnTimers(k: Kernel, e: Entry<Target>)
    requires KInv(k) && k.s.current in k.inWait
    ensures e in Finish(k).timers <==> e in k.timers && e.who != WaitTimeout(k.s.current)
  {
    hide Inv, Remove, Has;
    RemoveMembers(k.timers, WaitTimeout(k.s.current), e);
    HasMember(k.timers, e);
  }

  // ---------- what a tick does to a thread ----------

  /** What the callback of x makes of the view of thread t. */
  function FiredView(v: View, x: Target, t: Tid): View {
    if x == SleepWake(t) then v.(kind := Active)
    else if x == WaitTimeout(t) && v.kind == Parked then View(Active, None, ERR_TIMED_OUT)
    else v
  }

  lemma OneFired(s: Sched, x: Target, t: Tid)
    requires Inv(s)
    ensures Look(Fire(s, x).threads, t) == FiredView(Look(s.threads, t), x, t)
  {
    match x
    case SleepWake(u) => PutLook(s.threads, u, At(s, u).(state := Ready));
    case WaitTimeout(u) => UnblockLook(s, u, ERR_TIMED_OUT);
  }

  /** A sleeper whose time has come runs again, a timed waiter too, with a timeout; nobody else is touched. */
  ghost function TickedView(k: Kernel, now: int, t: Tid): View {
    var v := Look(k.s.threads, t);
    if DueBy(k.timers, now, SleepWake(t)) then v.(kind := Active)
    else if DueBy(k.timers, now, WaitTimeout(t)) && v.kind == Parked then View(Active, None, ERR_TIMED_OUT)
    else v
  }

  lemma {:induction false} FireDueLook(k: Kernel, now: int, t: Tid)
    requires KInv(k)
    ensures Look(FireDue(k, now).s.threads, t) == TickedView(k, now, t)
    decreases |k.timers|
  {
    hide Inv, Rest, Fire, Look;
    TimersFacts(k);
    if k.timers == [] {
    } else if now < k.timers[0].due {
      NoneDue(k.timers, now);
    } else {
      var h, rest := k.timers[0], k.timers[1..];
      var k1 := k.(timers := rest, s := Fire(k.s, h.who));
      assert k.timers == [h] + rest;
      FireWaked(k, now);
      OneFired(k.s, h.who, t);
      FireDueLook(k1, now, t);
      DueByCons(h, rest, now, SleepWake(t));
      DueByCons(h, rest, now, WaitTimeout(t));
      NotTwice(k, t);
    }
  }

  lemma TimersFacts(k: Kernel)
    requires KInv(k)
    ensures Sorted(k.timers) && Unique(k.timers)
  {
  }

  lemma NoneDue(q: Timers, now: int)
    requires Sorted(q) && q != [] && now < q[0].due
    ensures forall who :: !DueBy(q, now, who)
  {
  }

  /** The timer that fires is not queued again behind, and a sleeper has no other. */
  lemma NotTwice(k: Kernel, t: Tid)
    requires KInv(k) && k.timers != []
    ensures forall now :: !DueBy(k.timers[1..], now, k.timers[0].who)
    ensures Has(k.timers, SleepWake(t)) ==> Look(k.s.threads, t).kind == Asleep && !Has(k.timers, WaitTimeout(t))
  {
  }

  /** A tick, exactly, for every thread. */
  lemma TickLook(k: Kernel, now: int, t: Tid)
    requires KInv(k)
    ensures Look(Apply(k, Tick(now)).s.threads, t) == TickedView(k, now, t)
  {
    hide KInv, FireDue, TickedView, Look, Scheduler.Preempt, Charge;
    FireDueOk(k, now);
    FireDueLook(k, now, t);
    ChargePreemptLook(FireDue(k, now));
  }

  // ---------- arming ----------

  /** A sleep, or a wait with a timeout that blocks, arms a timer for now plus the delay, and its
      thread is asleep, or queued, until further notice. */
  lemma Armed(k: Kernel, st: Step)
    requires KInv(k) && Enabled(k, st) && Arms(k, st).Some?
    ensures var (k', e) := (Apply(k, st), Arms(k, st).value);
            && e in k'.timers
            && (st.Sleep? ==> Look(k'.s.threads, k.s.current).kind == Asleep)
            && (!st.Sleep? ==> IsParked(k', k.s.current) && k.s.current in k'.inWait && k'.inWait[k.s.current].timed)
  {
    hide KInv, Look, Apply, Enabled;
    PendingStep(k, st, Arms(k, st).value);
    StepKeepsInv(k, st);
    if st.Sleep? {
      Sleeper(Apply(k, st), Arms(k, st).value);
    } else {
      ArmedCall(k, st);
    }
  }

  lemma ArmedCall(k: Kernel, st: Step)
    requires KInv(k) && Enabled(k, st) && Arms(k, st).Some? && !st.Sleep?
    ensures IsParked(Apply(k, st), k.s.current)
    ensures k.s.current in Apply(k, st).inWait && Apply(k, st).inWait[k.s.current].timed
  {
    hide Inv, Rest, Block, Insert;
    BlockLook(k.s, JoinedQueue(k, st).value);
  }

  /** Whoever has a sleep timer sleeps. */
  lemma Sleeper(k: Kernel, e: Entry<Target>)
    requires KInv(k) && e in k.timers
    ensures e.who.SleepWake? ==> Look(k.s.threads, e.who.t).kind == Asleep
    ensures e.who.WaitTimeout? ==> e.who.t in k.inWait && k.inWait[e.who.t].timed
  {
    HasMember(k.timers, e);
    hide Inv;
  }

  // ---------- over runs ----------

  predicate Reaches(st: Step, due: int) {
    st.Tick? && due <= st.now
  }

  /** Was there a tick at or after due? */
  predicate Reached(run: seq<Step>, due: int) {
    run != [] && (Reached(run[..|run| - 1], due) || Reaches(run[|run| - 1], due))
  }

  /** A sleeper sleeps through every run whose ticks all come before its time. */
  lemma {:induction false} SleepsUntilDue(k: Kernel, run: seq<Step>, t: Tid, due: int)
    requires KInv(k) && Legal(k, run) && Entry(due, SleepWake(t)) in k.timers && !Reached(run, due)
    ensures KInv(After(k, run)) && Entry(due, SleepWake(t)) in After(k, run).timers
    ensures Look(After(k, run).s.threads, t).kind == Asleep
  {
    hide KInv, Apply, Enabled, Look;
    if run != [] {
      var before, st := run[..|run| - 1], run[|run| - 1];
      SleepsUntilDue(k, before, t, due);
      StepKeepsInv(After(k, before), st);
      PendingStep(After(k, before), st, Entry(due, SleepWake(t)));
    }
    Sleeper(After(k, run), Entry(due, SleepWake(t)));
  }

  /** The first tick at or after its time ends the sleep; until then nothing does. */
  lemma SleepEndsExactly(k: Kernel, run: seq<Step>, t: Tid, due: int)
    requires KInv(k) && Legal(k, run) && Entry(due, SleepWake(t)) in k.timers
    requires run != [] ==> !Reached(run[..|run| - 1], due)
    ensures Look(After(k, run).s.threads, t).kind == if Reached(run, due) then Active else Asleep
  {
    hide KInv, Apply, Enabled, Look;
    if Reached(run, due) {
      var k1 := After(k, run[..|run| - 1]);
      SleepsUntilDue(k, run[..|run| - 1], t, due);
      TimersFacts(k1);
      OneDue(k1.timers, run[|run| - 1].now, Entry(due, SleepWake(t)));
      TickLook(k1, run[|run| - 1].now, t);
    } else {
      SleepsUntilDue(k, run, t, due);
    }
  }

  /** Did a tick at or after due come while t was still queued? */
  ghost predicate Expired(k: Kernel, run: seq<Step>, t: Tid, due: int) {
    run != [] &&
    var before := run[..|run| - 1];
    Expired(k, before, t, due) || (Reaches(run[|run| - 1], due) && IsParked(After(k, before), t))
  }

  ghost predicate HasTimedOut(k: Kernel, t: Tid) {
    Look(k.s.threads, t) == View(Active, None, ERR_TIMED_OUT)
  }

  /** Until a timed call returns: it is still queued only if every tick came before its deadline, and
      it has timed out exactly if a tick at or after its deadline found it queued. */
  lemma {:induction false} TimesOutExactly(k: Kernel, run: seq<Step>, t: Tid, due: int)
    requires KInv(k) && Legal(k, run) && !Returned(k, run, t)
    requires IsParked(k, t) && Entry(due, WaitTimeout(t)) in k.timers
    ensures KInv(After(k, run)) && t in After(k, run).inWait
    ensures IsParked(After(k, run), t) ==> !Reached(run, due) && Entry(due, WaitTimeout(t)) in After(k, run).timers
    ensures HasTimedOut(After(k, run), t) <==> Expired(k, run, t, due)
    ensures IsParked(After(k, run), t) || Look(After(k, run).s.threads, t).kind == Active
  {
    hide KInv, Apply, Enabled, Look;
    Sleeper(k, Entry(due, WaitTimeout(t)));
    if run != [] {
      var before, st := run[..|run| - 1], run[|run| - 1];
      TimesOutExactly(k, before, t, due);
      WaitStep(After(k, before), st, t, due);
    }
  }

  /** One step, for a thread inside a timed call. */
  lemma WaitStep(k: Kernel, st: Step, t: Tid, due: int)
    requires KInv(k) && Enabled(k, st) && t in k.inWait && !(st.Return? && k.s.current == t)
    requires IsParked(k, t) ==> Entry(due, WaitTimeout(t)) in k.timers
    ensures KInv(Apply(k, st)) && t in Apply(k, st).inWait
    ensures !IsParked(k, t) ==> Look(Apply(k, st).s.threads, t) == Look(k.s.threads, t)
    ensures IsParked(k, t) ==> (HasTimedOut(Apply(k, st), t) <==> Reaches(st, due))
    ensures IsParked(k, t) ==> IsParked(Apply(k, st), t) || Look(Apply(k, st).s.threads, t).kind == Active
    ensures IsParked(Apply(k, st), t) ==> !Reaches(st, due) && Entry(due, WaitTimeout(t)) in Apply(k, st).timers
  {
    hide KInv, Apply, Enabled, Look;
    StepKeepsInv(k, st);
    CallStep(k, st, t);
    PendingStep(k, st, Entry(due, WaitTimeout(t)));
    if IsParked(k, t) && st.Tick? {
      TimersFacts(k);
      Awake(k, t);
      OneDue(k.timers, st.now, Entry(due, WaitTimeout(t)));
      TickLook(k, st.now, t);
    }
  }

  lemma Awake(k: Kernel, t: Tid)
    requires KInv(k) && IsParked(k, t)
    ensures forall now :: !DueBy(k.timers, now, SleepWake(t))
  {
    hide Inv;
    DueByHas(k.timers, SleepWake(t));
  }
}
