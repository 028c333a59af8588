/**
 A legal run of fifteen steps in which a thread is left waiting for a mutex nobody owns: a
 timed waiter times out but does not run; the owner releases the mutex and acquires it again.
 */
module StrandedRun {
  import opened Basics
  import opened Scheduler
  import opened SchedulerInv
  import opened SchedulerEffects
  import opened TimerQueue
  import opened KernelModel
  import opened KernelInv
  import opened KernelSteps
  import opened KernelViews
  import opened MutexTheorems
  import opened RoundRobin

  const M: nat := 0
  const A: Tid := 2
  const B: Tid := 3

  /** kmain starts the deferred-call thread and A, and becomes the idle thread; A does the rest. */
  function Steps(): seq<Step> {
    [Create(DPC, 30), Resume(DPC), Create(A, 16), Resume(A), BecomeIdle, Step.Preempt, DpcWait,
     MutexInit(M), Create(B, 16), Acquire(M, 0, None), Resume(B),
     Acquire(M, 0, Some(10)), Tick(10), Release(M), Acquire(M, 20, None)]
  }

  /** Run queues with r0 at priority 0 and r16 at priority 16. */
  function Runs(r0: seq<Tid>, r16: seq<Tid>): RunQueues {
    (seq(32, _ => []))[0 := r0][16 := r16]
  }

  /** Rescheduling when the head of priority 16 is the choice. */
  lemma Switch(s: Sched, r0: seq<Tid>, q: seq<Tid>, t: Tid)
    requires s.run == Runs(r0, q) && q != [] && q[0] == t
    ensures var r := At(s, t).(state := Running);
            Resched(s) == Sched(s.threads[t := if t != s.current && r.quantum <= 0 then r.(quantum := 5) else r],
                                Runs(r0, q[1..]), s.waits, t, s.idle)
  {
    TopIs(s.run, 16);
    assert s.run[16] == q;
    assert s.run[16 := q[1..]] == Runs(r0, q[1..]);
  }

  lemma Pushed(s: Sched, r0: seq<Tid>, r16: seq<Tid>, t: Tid)
    requires s.run == Runs(r0, r16)
    ensures At(s, t).priority == 16 ==> PushHead(s, t) == s.(run := Runs(r0, [t] + r16))
    ensures At(s, t).priority == 16 ==> PushTail(s, t) == s.(run := Runs(r0, r16 + [t]))
    ensures At(s, t).priority == 0 ==> PushTail(s, t) == s.(run := Runs(r0 + [t], r16))
  {
    assert Runs(r0, r16)[16 := [t] + r16] == Runs(r0, [t] + r16);
    assert Runs(r0, r16)[16 := r16 + [t]] == Runs(r0, r16 + [t]);
    assert Runs(r0, r16)[0 := r0 + [t]] == Runs(r0 + [t], r16);
  }

  function Th(st: ThreadState, q: int): Thread { Thread(16, st, q, None, NO_ERROR) }

  function Idle(st: ThreadState): Thread { Thread(0, st, 0, None, NO_ERROR) }

  const OLD_B := Thread(16, Ready, 5, None, ERR_TIMED_OUT)
  const PARKED_A := Thread(16, Blocked, 4, Some(OfMutex(M)), NO_ERROR)
  const PARKED_B := Thread(16, Blocked, 5, Some(OfMutex(M)), NO_ERROR)
  const PARKED_DPC := Thread(30, Blocked, 5, Some(OfEvent(DPC_EVENT)), NO_ERROR)
  const W0: Scheduler.Waits := map[OfEvent(DPC_EVENT) := [DPC]]
  const W: Scheduler.Waits := W0[OfMutex(M) := []]
  const B_CALL := Wait(OfMutex(M), true)
  const CALLS: InWait := map[DPC := Wait(OfEvent(DPC_EVENT), false)]

  /** A kernel with the idle thread, the deferred-call thread waiting for work, A and B, and the one mutex. */
  function State(idle: Thread, a: Thread, b: Thread, r0: seq<Tid>, r16: seq<Tid>, waits: Scheduler.Waits, t: Tid,
                 inWait: InWait, mx: Mutex, timers: Timers): Kernel {
    Kernel(Sched(map[BOOT := idle, DPC := PARKED_DPC, A := a, B := b], Runs(r0, r16), waits, t, Some(BOOT)),
           inWait, map[M := mx], map[DPC_EVENT := Event(false, false)], timers, [], AtTake)
  }

  function Boot(st: ThreadState): Thread { Thread(31, st, 0, None, NO_ERROR) }

  function Dpc(st: ThreadState, q: int): Thread { Thread(30, st, q, None, NO_ERROR) }

  function K2(): Kernel {
    Init().(s := Init().s.(threads := map[BOOT := Boot(Running), DPC := Dpc(Ready, 0)],
                           run := Runs([], [])[30 := [DPC]]))
  }
  function K4(): Kernel {
    Init().(s := Init().s.(threads := map[BOOT := Boot(Running), DPC := Dpc(Ready, 0), A := Th(Ready, 0)],
                           run := Runs([], [A])[30 := [DPC]]))
  }
  function K5(): Kernel {
    Init().(s := Sched(map[BOOT := Idle(Running), DPC := Dpc(Ready, 0), A := Th(Ready, 0)],
                       Runs([], [A])[30 := [DPC]], Init().s.waits, BOOT, Some(BOOT)))
  }
  function K6(): Kernel {
    Init().(s := Sched(map[BOOT := Idle(Ready), DPC := Dpc(Running, 5), A := Th(Ready, 0)],
                       Runs([BOOT], [A]), Init().s.waits, DPC, Some(BOOT)))
  }
  function K7(): Kernel {
    Kernel(Sched(map[BOOT := Idle(Ready), DPC := PARKED_DPC, A := Th(Running, 5)], Runs([BOOT], []), W0, A, Some(BOOT)),
           CALLS, map[], map[DPC_EVENT := Event(false, false)], [], [], AtTake)
  }
  function K9(): Kernel {
    State(Idle(Ready), Th(Running, 5), Th(Suspended, 0), [BOOT], [], W, A, CALLS, Mutex(0, None), [])
  }
  function K10(): Kernel {
    State(Idle(Ready), Th(Running, 5), Th(Suspended, 0), [BOOT], [], W, A, CALLS, Mutex(1, Some(A)), [])
  }
  function K11(): Kernel {
    State(Idle(Ready), Th(Ready, 0), Th(Running, 5), [BOOT], [A], W, B, CALLS, Mutex(1, Some(A)), [])
  }
  function K12(): Kernel {
    State(Idle(Ready), Th(Running, 5), PARKED_B, [BOOT], [], W[OfMutex(M) := [B]], A,
          CALLS[B := B_CALL], Mutex(2, Some(A)), [Entry(10, WaitTimeout(B))])
  }
  function K13(): Kernel {
    State(Idle(Ready), Th(Running, 4), OLD_B, [BOOT], [B], W, A,
          CALLS[B := B_CALL], Mutex(2, Some(A)), [])
  }
  function K14(): Kernel {
    K13().(mutexes := map[M := Mutex(1, None)])
  }
  function K15(): Kernel {
    State(Idle(Ready), PARKED_A, OLD_B.(state := Running), [BOOT], [], W[OfMutex(M) := [A]], B,
          CALLS[B := B_CALL][A := Wait(OfMutex(M), false)], Mutex(2, None), [])
  }

  /** thread_resume spelled out: t at the head of its queue, the caller at the tail of its own. */
  lemma ResumeIs(k: Kernel, t: Tid)
    requires At(k.s, t).state == Suspended
    ensures var s1 := PushHead(SetState(k.s, t, Ready), t);
            var s2 := Put(s1, s1.current, At(s1, s1.current).(state := Ready, quantum := 0));
            Apply(k, Resume(t)) == k.(s := Resched(PushTail(s2, s2.current)))
  {
    hide Resched;
  }

  /** While the boot thread has the highest priority, the threads it resumes wait for it to become idle. */
  lemma BootResumes(k: Kernel, t: Tid)
    requires k.s.current == BOOT && At(k.s, BOOT) == Boot(Running) && k.s.run[31] == []
    requires At(k.s, t).state == Suspended && At(k.s, t).priority < 31
    ensures Apply(k, Resume(t)) == k.(s := PushHead(SetState(k.s, t, Ready), t))
  {
    ResumeIs(k, t);
    var s1 := PushHead(SetState(k.s, t, Ready), t);
    var s2 := Put(s1, BOOT, Boot(Ready));
    var s3 := PushTail(s2, BOOT);
    TopIs(s3.run, 31);
    assert s3.run[31] == [BOOT] && [BOOT][1..] == [];
    assert s3.run[31 := []] == s1.run;
    assert s2.threads[BOOT := Boot(Running)] == s1.threads;
  }

  lemma Reach2()
    ensures Enabled(Init(), Create(DPC, 30))
    ensures var k := Apply(Init(), Create(DPC, 30)); Enabled(k, Resume(DPC)) && Apply(k, Resume(DPC)) == K2()
  {
    var k := Apply(Init(), Create(DPC, 30));
    BootResumes(k, DPC);
    assert Runs([], []) == seq(32, _ => []);
    assert [DPC] + [] == [DPC];
    assert SetState(k.s, DPC, Ready).threads == K2().s.threads;
  }

  lemma Reach4()
    ensures Enabled(K2(), Create(A, 16))
    ensures var k := Apply(K2(), Create(A, 16)); Enabled(k, Resume(A)) && Apply(k, Resume(A)) == K4()
  {
    var k := Apply(K2(), Create(A, 16));
    BootResumes(k, A);
    assert [A] + [] == [A];
    assert k.s.run[16 := [A]] == K4().s.run;
    assert SetState(k.s, A, Ready).threads == K4().s.threads;
  }

  lemma Reach5()
    ensures Enabled(K4(), BecomeIdle) && Apply(K4(), BecomeIdle) == K5()
  {
    assert Apply(K4(), BecomeIdle).s.threads == K5().s.threads;
  }

  /** Once idle, the boot thread gives way to the deferred-call thread. */
  lemma Reach6()
    ensures Enabled(K5(), Step.Preempt) && Apply(K5(), Step.Preempt) == K6()
  {
    var s1 := SetState(K5().s, BOOT, Ready);
    var s2 := PushTail(s1, BOOT);
    assert [] + [BOOT] == [BOOT] && [DPC][1..] == [];
    assert s2.run == Runs([BOOT], [A])[30 := [DPC]];
    TopIs(s2.run, 30);
    assert s2.run[30 := []] == Runs([BOOT], [A]);
    assert Resched(s2).threads == K6().s.threads;
  }

  /** The deferred-call thread finds no work and leaves the processor to A. */
  lemma Reach7()
    ensures Enabled(K6(), DpcWait) && Apply(K6(), DpcWait) == K7()
  {
    var s := Park(K6().s, OfEvent(DPC_EVENT));
    assert [] + [DPC] == [DPC] && [A][1..] == [];
    assert s.waits == W0;
    Switch(s, [BOOT], [A], A);
    assert Resched(s).threads == K7().s.threads;
    assert Apply(K6(), DpcWait).inWait == CALLS;
  }

  lemma Reach9()
    ensures Enabled(K7(), MutexInit(M))
    ensures var k := Apply(K7(), MutexInit(M)); Enabled(k, Create(B, 16)) && Apply(k, Create(B, 16)) == K9()
  {
    assert Apply(Apply(K7(), MutexInit(M)), Create(B, 16)).s.threads == K9().s.threads;
  }

  /** A contended acquire spelled out. */
  lemma AcquireIs(k: Kernel, m: nat, now: int, timeout: Option<nat>)
    requires m in k.mutexes && k.mutexes[m].count >= 1 && timeout != Some(0)
    ensures var w := OfMutex(m);
            Apply(k, Acquire(m, now, timeout)) ==
            k.(s := Resched(Park(k.s, w)),
               mutexes := k.mutexes[m := k.mutexes[m].(count := k.mutexes[m].count + 1)],
               inWait := k.inWait[k.s.current := Wait(w, timeout.Some?)],
               timers := if timeout.Some? then Insert(k.timers, Entry(now + timeout.value, WaitTimeout(k.s.current)))
                         else k.timers)
  {
    hide Resched, Park, Insert;
  }

  lemma FreeAcquireIs(k: Kernel, m: nat)
    requires m in k.mutexes && k.mutexes[m].count == 0
    ensures Apply(k, Acquire(m, 0, None)) == k.(mutexes := k.mutexes[m := Mutex(1, Some(k.s.current))])
  {
  }

  /** A new thread of A's priority goes ahead of A, which lost its time slice by yielding. */
  lemma ResumeAhead(k: Kernel)
    requires k.s.run == Runs([BOOT], []) && k.s.current == A && At(k.s, A) == Th(Running, 5)
    requires At(k.s, B) == Th(Suspended, 0)
    ensures Apply(k, Resume(B)) ==
            k.(s := Sched(k.s.threads[B := Th(Running, 5)][A := Th(Ready, 0)], Runs([BOOT], [A]), k.s.waits, B, k.s.idle))
  {
    hide Apply, Resched, Runs;
    ResumeIs(k, B);
    var s0 := SetState(k.s, B, Ready);
    Pushed(s0, [BOOT], [], B);
    assert [B] + [] == [B] && [B] + [A] == [B, A] && [B, A][1..] == [A];
    var s1 := Put(PushHead(s0, B), A, Th(Ready, 0));
    Pushed(s1, [BOOT], [B], A);
    Switch(PushTail(s1, A), [BOOT], [B, A], B);
    assert Resched(PushTail(s1, A)).threads == k.s.threads[B := Th(Running, 5)][A := Th(Ready, 0)];
  }

  lemma Reach10()
    ensures Apply(K9(), Acquire(M, 0, None)) == K10()
  {
    hide Apply, Runs;
    FreeAcquireIs(K9(), M);
  }

  lemma Reach11()
    ensures Apply(K10(), Resume(B)) == K11()
  {
    hide Apply, Runs;
    ResumeAhead(K10());
    assert K10().s.threads[B := Th(Running, 5)][A := Th(Ready, 0)] == K11().s.threads;
  }

  lemma Reach12()
    ensures Apply(K11(), Acquire(M, 0, Some(10))) == K12()
  {
    hide Apply, Resched, Runs;
    AcquireIs(K11(), M, 0, Some(10));
    var s := Park(K11().s, OfMutex(M));
    assert [A][1..] == [] && [] + [B] == [B];
    Switch(s, [BOOT], [A], A);
    assert Resched(s).threads == K12().s.threads;
  }

  lemma Fire13(k1: Kernel)
    requires k1 == State(Idle(Ready), Th(Running, 5), OLD_B, [BOOT], [B], W, A,
                         CALLS[B := B_CALL], Mutex(2, Some(A)), [])
    ensures FireDue(K12(), 10) == k1
  {
    var s0 := Detach(K12().s, OfMutex(M), B, ERR_TIMED_OUT);
    assert [B] + [] == [B] && K12().timers[1..] == [];
    Pushed(s0, [BOOT], [], B);
    assert s0.threads == k1.s.threads;
    assert Fire(K12().s, WaitTimeout(B)) == k1.s;
  }

  lemma Preempt13(s: Sched)
    requires s == State(Idle(Ready), Th(Running, 5), OLD_B, [BOOT], [B], W, A,
                        CALLS[B := B_CALL], Mutex(2, Some(A)), []).s
    ensures Scheduler.Preempt(Charge(s)) == K13().s
  {
    assert [A] + [B] == [A, B] && [A, B][1..] == [B];
    var s2 := Put(s, A, Th(Ready, 4));
    assert SetState(Charge(s), A, Ready).threads == s2.threads;
    Pushed(s2, [BOOT], [B], A);
    assert Scheduler.Preempt(Charge(s)) == Resched(PushHead(s2, A));
    Switch(PushHead(s2, A), [BOOT], [A, B], A);
    assert Resched(PushHead(s2, A)).threads == K13().s.threads;
  }

  lemma TickIs(k: Kernel, now: int)
    ensures Apply(k, Tick(now)) == FireDue(k, now).(s := Scheduler.Preempt(Charge(FireDue(k, now).s)))
  {
    hide FireDue, Scheduler.Preempt, Charge;
  }

  lemma Reach13()
    ensures Apply(K12(), Tick(10)) == K13()
  {
    var k1 := State(Idle(Ready), Th(Running, 5), OLD_B, [BOOT], [B], W, A,
                    CALLS[B := B_CALL], Mutex(2, Some(A)), []);
    hide Apply, FireDue, Scheduler.Preempt, Charge, K12, Runs;
    TickIs(K12(), 10);
    Fire13(k1);
    Preempt13(k1.s);
  }

  lemma Reach14()
    ensures Apply(K13(), Release(M)) == K14()
  {
    hide Resched;
  }

  lemma Reach15()
    ensures Apply(K14(), Acquire(M, 20, None)) == K15()
  {
    hide Apply, Resched, Runs;
    AcquireIs(K14(), M, 20, None);
    var s := Park(K14().s, OfMutex(M));
    assert [B][1..] == [] && [] + [A] == [A];
    Switch(s, [BOOT], [B], B);
    assert Resched(s).threads == K15().s.threads;
  }

  lemma Extend(k: Kernel, run: seq<Step>, st: Step)
    requires Legal(k, run) && Enabled(After(k, run), st)
    ensures Legal(k, run + [st]) && After(k, run + [st]) == Apply(After(k, run), st)
  {
    assert (run + [st])[..|run + [st]| - 1] == run;
  }

  lemma NoStep(k: Kernel)
    ensures Legal(k, []) && After(k, []) == k
  {
  }

  lemma LegalTo4()
    ensures Legal(Init(), Steps()[..4]) && After(Init(), Steps()[..4]) == K4()
  {
    hide Apply, Enabled, After, Legal, Init, K2, K4;
    var i, run := Init(), Steps();
    NoStep(i);
    assert run[..0] == [] && run[..1] == [] + [run[0]] && run[..2] == run[..1] + [run[1]];
    assert run[..3] == run[..2] + [run[2]] && run[..4] == run[..3] + [run[3]];
    Reach2();
    Reach4();
    Extend(i, [], run[0]);
    Extend(i, run[..1], run[1]);
    Extend(i, run[..2], run[2]);
    Extend(i, run[..3], run[3]);
  }

  lemma LegalTo7()
    ensures Legal(Init(), Steps()[..7]) && After(Init(), Steps()[..7]) == K7()
  {
    var i, run := Init(), Steps();
    hide Apply, Enabled, After, Legal, Init, K4, K5, K6, K7;
    assert run[..5] == run[..4] + [run[4]] && run[..6] == run[..5] + [run[5]] && run[..7] == run[..6] + [run[6]];
    LegalTo4();
    Reach5();
    Reach6();
    Reach7();
    Extend(i, run[..4], run[4]);
    Extend(i, run[..5], run[5]);
    Extend(i, run[..6], run[6]);
  }

  lemma LegalTo9()
    ensures Legal(Init(), Steps()[..9]) && After(Init(), Steps()[..9]) == K9()
  {
    var i, run := Init(), Steps();
    hide Apply, Enabled, After, Legal, Init, K7, K9;
    assert run[..8] == run[..7] + [run[7]] && run[..9] == run[..8] + [run[8]];
    LegalTo7();
    Reach9();
    Extend(i, run[..7], run[7]);
    Extend(i, run[..8], run[8]);
  }

  lemma Allowed12()
    ensures Enabled(K9(), Acquire(M, 0, None)) && Enabled(K10(), Resume(B)) && Enabled(K11(), Acquire(M, 0, Some(10)))
  {
  }

  lemma Allowed15()
    ensures Enabled(K12(), Tick(10)) && Enabled(K13(), Release(M)) && Enabled(K14(), Acquire(M, 20, None))
  {
  }

  lemma LegalTo12()
    ensures Legal(Init(), Steps()[..12]) && After(Init(), Steps()[..12]) == K12()
  {
    var i, run := Init(), Steps();
    hide Apply, After, Legal, Init, Enabled, K9, K10, K11, K12;
    LegalTo9();
    Allowed12();
    Reach10();
    Reach11();
    Reach12();
    assert run[..10] == run[..9] + [run[9]] && run[..11] == run[..10] + [run[10]] && run[..12] == run[..11] + [run[11]];
    Extend(i, run[..9], run[9]);
    Extend(i, run[..10], run[10]);
    Extend(i, run[..11], run[11]);
  }

  lemma LegalTo15()
    ensures Legal(Init(), Steps()) && After(Init(), Steps()) == K15()
  {
    var i, run := Init(), Steps();
    hide Apply, After, Legal, Init, Enabled, K12, K13, K14, K15;
    LegalTo12();
    Allowed15();
    Reach13();
    Reach14();
    Reach15();
    assert run[..13] == run[..12] + [run[12]] && run[..14] == run[..13] + [run[13]] && run == run[..14] + [run[14]];
    Extend(i, run[..12], run[12]);
    Extend(i, run[..13], run[13]);
    Extend(i, run[..14], run[14]);
  }

  /** The run is legal, and ends with A queued without timeout on a mutex nobody owns. */
  lemma FreeMutexStrandsItsWaiter()
    ensures Legal(Init(), Steps())
    ensures var k := After(Init(), Steps());
            && M in k.mutexes && k.mutexes[M].holder == None
            && Queued(k, M) == [A] && A in k.inWait && !k.inWait[A].timed
            && Owners(k, M) == {} && !Served(k, M)
  {
    LegalTo15();
    hide Apply, After, Legal, Init;
    assert Look(K15().s.threads, B).ret == ERR_TIMED_OUT && Look(K15().s.threads, A).kind == Parked;
    assert forall t :: !Handed(K15().s.threads, K15().inWait, M, t);
  }
}
