/**
 Time sharing. The tick of the timer interrupt charges the running thread, and one that has
 used up its time gives way to the next of its priority: equals run five ticks each in turn.
 */
module TimeSlices {
  import opened Basics
  import opened Bits
  import opened Scheduler
  import opened SchedulerInv
  import opened SchedulerPlaces
  import opened SchedulerEffects
  import opened TimerQueue
  import opened KernelModel
  import opened KernelInv
  import opened KernelSteps
  import opened KernelViews
  import opened RoundRobin
  import opened ThreadFields

  const SLICE: nat := 5

  /** Only ticks, each before the first timer is due. */
  predicate QuietTicks(timers: Timers, run: seq<Step>) {
    forall i :: 0 <= i < |run| ==> run[i].Tick? && (timers == [] || run[i].now < timers[0].due)
  }

  /** A quiet tick does to the run queues what a preempt does to the charged thread. */
  lemma QuietTick(k: Kernel, now: int)
    requires KInv(k) && AtTop(k.s) && (k.timers == [] || now < k.timers[0].due)
    requires k.s.idle != Some(k.s.current)
    ensures var (s, s', p) := (k.s, Apply(k, Tick(now)).s, MyPriority(k.s));
            && (At(s, s.current).quantum > 1 || s.run[p] == [] ==> s'.current == s.current && s'.run == s.run)
            && (At(s, s.current).quantum <= 1 && s.run[p] != [] ==>
                  s'.current == s.run[p][0] && s'.run == s.run[p := s.run[p][1..] + [s.current]])
    ensures var k' := Apply(k, Tick(now));
            k'.timers == k.timers && k'.s.idle == k.s.idle && AtTop(k'.s)
  {
    hide Inv, Rest, Scheduler.Preempt, AtTop;
    ChargeOk(k.s);
    ChargeTop(k.s);
    PreemptOk(Charge(k.s));
    PreemptGivesWay(Charge(k.s));
    PreemptIdle(Charge(k.s));
  }

  lemma ChargeTop(s: Sched)
    requires Inv(s)
    ensures AtTop(s) ==> AtTop(Charge(s))
  {
    forall t
      ensures At(Charge(s), t).priority == At(s, t).priority && At(Charge(s), t).state == At(s, t).state
    {
    }
  }

  /** The running thread has one tick less, and whoever takes over a full slice if it had none. */
  ghost predicate Charged(k: Kernel, s': Sched) {
    forall t :: t in k.s.threads ==>
      && At(s', t).priority == At(k.s, t).priority
      && (t == k.s.current ==> At(s', t).quantum == At(k.s, t).quantum - 1)
      && (t != k.s.current && t != s'.current ==> At(s', t).quantum == At(k.s, t).quantum)
      && (t != k.s.current && t == s'.current ==>
            At(s', t).quantum == if At(k.s, t).quantum <= 0 then SLICE else At(k.s, t).quantum)
  }

  /** A tick as StepFields gives it. */
  lemma TickedFields(k: Kernel, now: int, s': Sched)
    requires FieldsAfter(k, Tick(now), s') && k.s.idle != Some(k.s.current)
    ensures Charged(k, s')
  {
  }

  /** With an equal ready and nobody more urgent, a thread that only gets quiet ticks runs on for exactly
      the ticks it has left, and then gives way to the next of its priority. */
  lemma {:induction false} GivesWayAfterItsTime(k: Kernel, run: seq<Step>)
    requires KInv(k) && Legal(k, run) && QuietTicks(k.timers, run) && AtTop(k.s) && k.s.idle != Some(k.s.current)
    requires k.s.run[MyPriority(k.s)] != [] && 1 <= |run| <= At(k.s, k.s.current).quantum
    ensures var (s, s', p) := (k.s, After(k, run).s, MyPriority(k.s));
            && KInv(After(k, run)) && AtTop(s') && After(k, run).timers == k.timers && s'.idle == s.idle
            && (|run| < At(s, s.current).quantum ==>
                  s'.current == s.current && s'.run == s.run && MyPriority(s') == p
                  && At(s', s.current).quantum == At(s, s.current).quantum - |run|)
            && (|run| == At(s, s.current).quantum ==>
                  s'.current == s.run[p][0] && s'.run == s.run[p := s.run[p][1..] + [s.current]])
  {
    hide KInv, Apply, Enabled, AtTop, FieldsAfter;
    var before, st := run[..|run| - 1], run[|run| - 1];
    if before != [] {
      GivesWayAfterItsTime(k, before);
    }
    var k1 := After(k, before);
    RunningExists(k1);
    StepKeepsInv(k1, st);
    QuietTick(k1, st.now);
    StepFields(k1, st);
    TickedFields(k1, st.now, Apply(k1, st).s);
  }

  /** What time sharing needs of the state: somebody else is ready at the running thread's priority and
      nobody above, the idle thread is not among them, and all but the running thread need a new slice. */
  ghost predicate Sharing(s: Sched) {
    && AtTop(s) && s.run[MyPriority(s)] != []
    && (s.idle.Some? ==> s.idle.value !in Ring(s))
    && 1 <= At(s, s.current).quantum <= SLICE
    && (forall t :: t in s.run[MyPriority(s)] ==> At(s, t).quantum <= 0)
  }

  /** The ring after m turns. */
  function Turned(r: seq<Tid>, m: nat): seq<Tid>
    requires m < |r|
  {
    r[m..] + r[..m]
  }

  /** One tick: the running thread has one tick less, or hands a full slice to the next in the ring. */
  lemma ShareTick(k: Kernel, now: int)
    requires KInv(k) && Enabled(k, Tick(now)) && Sharing(k.s) && (k.timers == [] || now < k.timers[0].due)
    ensures var (s, k') := (k.s, Apply(k, Tick(now))); var s' := k'.s;
            && KInv(k') && Sharing(s') && k'.timers == k.timers
            && (At(s, s.current).quantum > 1 ==> Ring(s') == Ring(s) && At(s', s'.current).quantum == At(s, s.current).quantum - 1)
            && (At(s, s.current).quantum == 1 ==> Ring(s') == Ring(s)[1..] + Ring(s)[..1] && At(s', s'.current).quantum == SLICE)
  {
    hide KInv, Apply, Enabled, FieldsAfter, AtTop, Distinct;
    RingOfEquals(k);
    SharingIdle(k.s);
    StepKeepsInv(k, Tick(now));
    QuietTick(k, now);
    StepFields(k, Tick(now));
    TickedFields(k, now, Apply(k, Tick(now)).s);
    if At(k.s, k.s.current).quantum > 1 {
      LongSlice(k, Apply(k, Tick(now)));
    } else {
      LastTick(k, Apply(k, Tick(now)));
    }
  }

  lemma SharingIdle(s: Sched)
    requires Sharing(s)
    ensures s.idle != Some(s.current)
  {
    assert s.current in Ring(s);
  }

  lemma LongSlice(k: Kernel, k': Kernel)
    requires Sharing(k.s) && Charged(k, k'.s) && AtTop(k'.s) && At(k.s, k.s.current).quantum > 1
    requires Distinct(Ring(k.s)) && forall t :: t in Ring(k.s) ==> t in k.s.threads
    requires k'.s.current == k.s.current && k'.s.run == k.s.run && k'.s.idle == k.s.idle
    ensures Sharing(k'.s) && Ring(k'.s) == Ring(k.s)
    ensures At(k'.s, k'.s.current).quantum == At(k.s, k.s.current).quantum - 1
  {
    hide AtTop;
    var q := k.s.run[MyPriority(k.s)];
    assert k.s.current in Ring(k.s) && Ring(k.s)[1..] == q;
    assert forall t :: t in q ==> t in Ring(k.s);
    CurrentElsewhere(k.s);
    StillSharing(k.s, k'.s);
  }

  lemma CurrentElsewhere(s: Sched)
    requires Distinct(Ring(s))
    ensures s.current !in s.run[MyPriority(s)]
  {
    var q := s.run[MyPriority(s)];
    assert Ring(s)[0] == s.current;
    assert forall i :: 0 <= i < |q| ==> Ring(s)[i + 1] == q[i];
  }

  lemma LastTick(k: Kernel, k': Kernel)
    requires Sharing(k.s) && Charged(k, k'.s) && AtTop(k'.s) && At(k.s, k.s.current).quantum == 1
    requires Distinct(Ring(k.s)) && forall t :: t in Ring(k.s) ==> At(k.s, t).priority == MyPriority(k.s) && t in k.s.threads
    requires var p := MyPriority(k.s);
             k'.s.current == k.s.run[p][0] && k'.s.run == k.s.run[p := k.s.run[p][1..] + [k.s.current]] && k'.s.idle == k.s.idle
    ensures Sharing(k'.s) && Ring(k'.s) == Ring(k.s)[1..] + Ring(k.s)[..1]
    ensures At(k'.s, k'.s.current).quantum == SLICE
  {
    hide AtTop;
    var q := k.s.run[MyPriority(k.s)];
    assert k.s.current in Ring(k.s) && Ring(k.s)[1..] == q && q[0] in q;
    assert forall t :: t in q ==> t in Ring(k.s);
    assert forall t :: t in q[1..] ==> t in q;
    CurrentElsewhere(k.s);
    HeadElsewhere(k.s);
    HandedOn(k.s, k'.s);
  }

  lemma HeadElsewhere(s: Sched)
    requires Distinct(Ring(s)) && s.run[MyPriority(s)] != []
    ensures var q := s.run[MyPriority(s)]; q[0] !in q[1..]
  {
    var q := s.run[MyPriority(s)];
    assert forall i :: 0 <= i < |q| ==> Ring(s)[i + 1] == q[i];
  }

  lemma RingOfEquals(k: Kernel)
    requires KInv(k)
    ensures Distinct(Ring(k.s)) && forall t :: t in Ring(k.s) ==> At(k.s, t).priority == MyPriority(k.s) && t in k.s.threads
  {
    hide Rest;
    RingMembers(k.s);
    RingDistinct(k.s);
    QueuedExist(k.s);
    CurrentExists(k.s);
  }

  /** A tick that leaves the running thread some time. */
  lemma StillSharing(s: Sched, s': Sched)
    requires Sharing(s) && AtTop(s') && s'.current == s.current && s'.run == s.run && s'.idle == s.idle
    requires At(s', s.current).priority == MyPriority(s)
    requires At(s, s.current).quantum > 1 && At(s', s.current).quantum == At(s, s.current).quantum - 1
    requires forall t :: t in s.run[MyPriority(s)] ==> At(s', t).quantum == At(s, t).quantum
    ensures Sharing(s') && Ring(s') == Ring(s)
  {
    hide AtTop;
  }

  /** A tick that takes its last. */
  lemma HandedOn(s: Sched, s': Sched)
    requires Sharing(s) && AtTop(s') && s'.idle == s.idle && Distinct(Ring(s))
    requires var p := MyPriority(s);
             && s'.current == s.run[p][0] && s'.run == s.run[p := s.run[p][1..] + [s.current]]
             && At(s', s'.current).priority == p && At(s', s'.current).quantum == SLICE
             && At(s', s.current).quantum <= 0
             && forall t :: t in s.run[p][1..] ==> At(s', t).quantum == At(s, t).quantum
    ensures Sharing(s') && Ring(s') == Ring(s)[1..] + Ring(s)[..1]
  {
    hide AtTop, Distinct;
    var q := s.run[MyPriority(s)];
    assert Ring(s') == [q[0]] + (q[1..] + [s.current]);
    assert Ring(s)[1..] + Ring(s)[..1] == [q[0]] + (q[1..] + [s.current]);
    assert forall t :: t in Ring(s') ==> t in Ring(s);
  }

  /** Turning a ring once more. */
  lemma TurnOnce(r: seq<Tid>, m: nat)
    requires m < |r|
    ensures var t := Turned(r, m); t[1..] + t[..1] == Turned(r, (m + 1) % |r|)
  {
    var t := Turned(r, m);
    if m + 1 < |r| {
      assert (m + 1) % |r| == m + 1;
    } else {
      assert (m + 1) % |r| == 0;
      assert t == [r[m]] + r[..m] && r == r[..m] + [r[m]];
    }
  }

  /** How many turns after n ticks, for a ring of size r, when the first thread starts with q ticks left. */
  function TurnsIn(n: nat, q: nat): nat
    requires 1 <= q <= SLICE
  {
    (n + SLICE - q) / SLICE
  }

  /** The arithmetic of one more tick. */
  lemma OneMoreTick(n: nat, q: nat)
    requires 1 <= q <= SLICE
    ensures var left := SLICE - (n + SLICE - q) % SLICE;
            && 1 <= left <= SLICE
            && (left > 1 ==> TurnsIn(n + 1, q) == TurnsIn(n, q) && SLICE - (n + 1 + SLICE - q) % SLICE == left - 1)
            && (left == 1 ==> TurnsIn(n + 1, q) == TurnsIn(n, q) + 1 && SLICE - (n + 1 + SLICE - q) % SLICE == SLICE)
  {
  }

  lemma ModNext(a: nat, n: nat)
    requires n > 0
    ensures (a % n + 1) % n == (a + 1) % n
  {
    var q, r := a / n, a % n;
    assert a == q * n + r;
    if r + 1 < n {
      ModUnique(a + 1, n, q, r + 1);
      ModUnique(r + 1, n, 0, r + 1);
    } else {
      assert a + 1 == (q + 1) * n;
      ModUnique(a + 1, n, q + 1, 0);
      ModUnique(n, n, 1, 0);
    }
  }

  /** Time sharing over any number of quiet ticks: after n of them the ring of equals has turned once
      for each slice used up, and the running thread has the rest of its slice left. So each runs for
      five ticks, in ring order, again and again. */
  lemma {:induction false} EqualsTakeTurns(k: Kernel, run: seq<Step>)
    requires KInv(k) && Legal(k, run) && Sharing(k.s) && QuietTicks(k.timers, run)
    ensures var (k', r, q) := (After(k, run), Ring(k.s), At(k.s, k.s.current).quantum);
            && KInv(k') && Sharing(k'.s) && k'.timers == k.timers
            && Ring(k'.s) == Turned(r, TurnsIn(|run|, q) % |r|)
            && k'.s.current == r[TurnsIn(|run|, q) % |r|]
            && At(k'.s, k'.s.current).quantum == SLICE - (|run| + SLICE - q) % SLICE
  {
    hide KInv, Apply, Enabled, Sharing;
    var r := Ring(k.s);
    FirstSlice(k.s);
    var q := At(k.s, k.s.current).quantum;
    if run == [] {
      assert Turned(r, 0) == r;
      ModUnique(0, |r|, 0, 0);
    } else {
      var before, st := run[..|run| - 1], run[|run| - 1];
      EqualsTakeTurns(k, before);
      ShareTick(After(k, before), st.now);
      OneMoreTick(|before|, q);
      FirstSlice(After(k, before).s);
      var m := TurnsIn(|before|, q);
      TurnOnce(r, m % |r|);
      ModNext(m, |r|);
      assert Ring(After(k, run).s)[0] == After(k, run).s.current;
    }
  }

  lemma FirstSlice(s: Sched)
    requires Sharing(s)
    ensures 1 <= At(s, s.current).quantum <= SLICE && s.current == Ring(s)[0]
  {
  }
}
