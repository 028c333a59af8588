/**
 What kernel/mutex.c promises over whole runs: mutual exclusion, the meaning of `count`,
 first-come-first-served grants, and exactly when a free mutex can leave a thread blocked.
 */
module MutexTheorems {
  import opened Basics
  import opened Scheduler
  import opened SchedulerInv
  import opened SchedulerEffects
  import opened TimerQueue
  import opened KernelModel
  import opened KernelInv
  import opened KernelSteps
  import opened KernelViews

  function Queued(k: Kernel, u: nat): seq<Tid> {
    Waiting(k.s, OfMutex(u))
  }

  function Elems(q: seq<Tid>): set<Tid> {
    set t | t in q
  }

  ghost function HandedTo(k: Kernel, u: nat): set<Tid> {
    set t | t in k.inWait && Handed(k.s.threads, k.inWait, u, t)
  }

  /** The recorded holder and whoever has been handed the mutex but has not run yet. */
  ghost function Owners(k: Kernel, u: nat): set<Tid> {
    (if MutexOf(k, u).holder.Some? then {MutexOf(k, u).holder.value} else {}) + HandedTo(k, u)
  }

  /** Waiters whose timeout fired and that have not run since: their share of count is still held. */
  ghost function TimedOut(k: Kernel, u: nat): set<Tid> {
    set t | t in k.inWait && k.inWait[t].w == OfMutex(u)
            && Look(k.s.threads, t).kind == Active && Look(k.s.threads, t).ret == ERR_TIMED_OUT
  }

  lemma {:induction false} DistinctSize(q: seq<Tid>)
    requires Distinct(q)
    ensures |Elems(q)| == |q|
  {
    if q == [] {
    } else {
      Basics.PopFacts(q);
      DistinctSize(q[1..]);
      assert q[0] !in Elems(q[1..]);
      assert Elems(q) == Elems(q[1..]) + {q[0]};
    }
  }

  lemma AtMostOneOwner(k: Kernel, u: nat)
    requires KInv(k)
    ensures |Owners(k, u)| <= 1
    ensures forall t, t' :: t in Owners(k, u) && t' in Owners(k, u) ==> t == t'
    ensures MutexOf(k, u).holder.Some? ==> Owners(k, u) == {MutexOf(k, u).holder.value}
  {
    hide Inv, Look, CallsOk, TimersOk, ObjectsOk, DpcOk;
    OneHanded(k.s.threads, k.inWait, k.mutexes, u);
    if t :| t in Owners(k, u) {
      assert Owners(k, u) == {t};
    }
  }

  lemma OneHanded(m: Threads, inWait: InWait, mutexes: Mutexes, u: nat)
    requires MutexOk(m, inWait, mutexes)
    ensures forall t, t' :: Handed(m, inWait, u, t) && Handed(m, inWait, u, t') ==> t == t'
    ensures forall t :: Handed(m, inWait, u, t) ==> u in mutexes && mutexes[u].holder == None
  {
    hide Look;
  }

  /** Acquirers split into queued, handed and timed out. */
  lemma SplitAcquirers(m: Threads, inWait: InWait, mutexes: Mutexes, u: nat, q: set<Tid>, h: set<Tid>, o: set<Tid>)
    requires MutexOk(m, inWait, mutexes)
    requires forall t :: t in inWait ==> Look(m, t).kind in {Parked, Active}
    requires forall t :: t in q <==> t in Acquirers(inWait, u) && Look(m, t).kind == Parked
    requires forall t :: t in h <==> Handed(m, inWait, u, t)
    requires forall t :: t in o <==> t in Acquirers(inWait, u) && Look(m, t).kind == Active && Look(m, t).ret == ERR_TIMED_OUT
    ensures |Acquirers(inWait, u)| == |q| + |h| + |o|
  {
    forall t
      ensures t in Acquirers(inWait, u) <==> t in q || t in h || t in o
    {
    }
    assert Acquirers(inWait, u) == q + h + o;
    assert q !! h && (q + h) !! o;
  }

  /** Mutual exclusion, and count = owner + queued waiters + timed-out waiters that have not run. */
  lemma MutexAccounting(k: Kernel, u: nat)
    requires KInv(k) && u in k.mutexes
    ensures |Owners(k, u)| <= 1
    ensures k.mutexes[u].count == |Owners(k, u)| + |Queued(k, u)| + |TimedOut(k, u)|
  {
    hide Inv, Look;
    AtMostOneOwner(k, u);
    OneHanded(k.s.threads, k.inWait, k.mutexes, u);
    QueuedSet(k, u);
    var h := HandedTo(k, u);
    var q := Elems(Queued(k, u));
    SplitAcquirers(k.s.threads, k.inWait, k.mutexes, u, q, h, TimedOut(k, u));
    if k.mutexes[u].holder.Some? {
      assert h == {};
    } else {
      assert Owners(k, u) == h;
    }
  }

  /** The queue holds exactly the parked acquirers, each once. */
  lemma QueuedSet(k: Kernel, u: nat)
    requires KInv(k)
    ensures forall t :: t in Queued(k, u) <==> t in Acquirers(k.inWait, u) && Look(k.s.threads, t).kind == Parked
    ensures |Elems(Queued(k, u))| == |Queued(k, u)|
  {
    QueuedOn(k, OfMutex(u));
    InvWaits(k.s);
    DistinctSize(Queued(k, u));
    hide RunOk, ThreadsOk;
    forall t | t in Acquirers(k.inWait, u) && Look(k.s.threads, t).kind == Parked
      ensures t in Queued(k, u)
    {
      assert Get(k.s.threads, t).state == Blocked;
    }
  }

  /** Over every legal run: mutual exclusion and the meaning of count. */
  lemma MutualExclusion(run: seq<Step>, u: nat)
    requires Legal(Init(), run) && u in After(Init(), run).mutexes
    ensures var k := After(Init(), run);
            |Owners(k, u)| <= 1 && k.mutexes[u].count == |Owners(k, u)| + |Queued(k, u)| + |TimedOut(k, u)|
  {
    RunKeepsInv(run);
    MutexAccounting(After(Init(), run), u);
  }

  // ---------- how one step moves ownership ----------

  predicate TakesFree(k: Kernel, st: Step, u: nat) {
    st.Acquire? && st.m == u && MutexOf(k, u).count < 1
  }

  /** Only acquire, release and the return from an acquire write the mutex. */
  lemma MutexFields(k: Kernel, st: Step, u: nat)
    requires KInv(k) && Enabled(k, st) && u in k.mutexes
    requires !(st.Acquire? && st.m == u) && !(st.Release? && st.m == u)
    requires st.Return? ==> k.inWait[k.s.current].w != OfMutex(u)
    ensures u in Apply(k, st).mutexes && Apply(k, st).mutexes[u] == k.mutexes[u]
  {
    hide Inv, Rest, Block, Resched, WakeOne, WakeAll, Retire, ResumeThread, FireDue;
    if st.Tick? {
      FireDueMutexes(k, st.now);
    }
  }

  lemma {:induction false} FireDueMutexes(k: Kernel, now: int)
    ensures FireDue(k, now).mutexes == k.mutexes && FireDue(k, now).events == k.events
    ensures FireDue(k, now).dpcs == k.dpcs && FireDue(k, now).dpcPc == k.dpcPc
    decreases |k.timers|
  {
    if k.timers != [] && k.timers[0].due <= now {
      FireDueMutexes(k.(timers := k.timers[1..], s := Fire(k.s, k.timers[0].who)), now);
    }
  }

  /** Nobody is handed a mutex by a step other than its release. */
  lemma HandedStep(k: Kernel, st: Step, u: nat, t: Tid)
    requires KInv(k) && Enabled(k, st) && !(st.Release? && st.m == u)
    ensures Handed(Apply(k, st).s.threads, Apply(k, st).inWait, u, t) <==>
              Handed(k.s.threads, k.inWait, u, t) && !(st.Return? && t == k.s.current)
  {
    hide KInv, Apply, Enabled, Look, JoinedQueue;
    StepWaked(k, st);
    StepCalls(k, st);
    if JoinedQueue(k, st).Some? {
      JoinedParked(k, st);
    }
  }

  lemma JoinedParked(k: Kernel, st: Step)
    requires KInv(k) && Enabled(k, st) && JoinedQueue(k, st).Some?
    ensures Look(Apply(k, st).s.threads, k.s.current).kind == Parked
    ensures k.s.current !in k.inWait
  {
    hide Inv, Rest, Block, Insert;
    DpcNotBoot(k);
    DpcEventFacts(k);
    BlockLook(k.s, JoinedQueue(k, st).value);
    assert Apply(k, st).s == Block(k.s, JoinedQueue(k, st).value);
  }

  /** Ownership changes hands only by taking a free mutex or by release, which hands it to the longest waiter. */
  lemma OwnersStep(k: Kernel, st: Step, u: nat)
    requires KInv(k) && Enabled(k, st) && u in k.mutexes
    ensures Owners(Apply(k, st), u) ==
              if TakesFree(k, st, u) then {k.s.current}
              else if st.Release? && st.m == u then
                if k.mutexes[u].count > 1 && Queued(k, u) != [] then {Queued(k, u)[0]} else {}
              else Owners(k, u)
  {
    StepKeepsInv(k, st);
    AtMostOneOwner(k, u);
    AtMostOneOwner(Apply(k, st), u);
    if st.Release? && st.m == u {
      ReleaseOwners(k, u);
    } else if st.Return? && k.inWait[k.s.current].w == OfMutex(u) {
      ReturnOwners(k, u);
    } else {
      forall t
        ensures Handed(Apply(k, st).s.threads, Apply(k, st).inWait, u, t) <==> Handed(k.s.threads, k.inWait, u, t)
      {
        HandedStep(k, st, u, t);
      }
      AcquireFields(k, st, u);
      if TakesFree(k, st, u) {
      } else {
        SameOwners(k, Apply(k, st), u);
      }
    }
  }

  lemma SameOwners(k: Kernel, k': Kernel, u: nat)
    requires forall t :: Handed(k'.s.threads, k'.inWait, u, t) <==> Handed(k.s.threads, k.inWait, u, t)
    requires MutexOf(k', u).holder == MutexOf(k, u).holder
    ensures Owners(k', u) == Owners(k, u)
  {
  }

  lemma AcquireFields(k: Kernel, st: Step, u: nat)
    requires KInv(k) && Enabled(k, st) && u in k.mutexes && !(st.Release? && st.m == u)
    requires st.Return? ==> k.inWait[k.s.current].w != OfMutex(u)
    ensures MutexOf(Apply(k, st), u).holder == if TakesFree(k, st, u) then Some(k.s.current) else k.mutexes[u].holder
  {
    hide Inv, Rest, Block;
    if st.Acquire? && st.m == u {
    } else {
      MutexFields(k, st, u);
    }
  }

  lemma ReturnOwners(k: Kernel, u: nat)
    requires KInv(k) && k.s.current in k.inWait && k.inWait[k.s.current].w == OfMutex(u)
    ensures Owners(Finish(k), u) == Owners(k, u)
  {
    hide Inv;
    var t := k.s.current;
    CurrentFacts(k);
    AtMostOneOwner(k, u);
    ReturnParts(k.s.threads, k.inWait, k.mutexes, t, u);
    hide Look, CallsOk, ObjectsOk, TimersOk, DpcOk;
    if Look(k.s.threads, t).ret == NO_ERROR {
      assert t in Owners(k, u);
      assert forall x :: !Handed(k.s.threads, Finish(k).inWait, u, x);
    }
  }

  lemma ReturnParts(m: Threads, inWait: InWait, mutexes: Mutexes, t: Tid, u: nat)
    requires MutexOk(m, inWait, mutexes) && t in inWait && inWait[t].w == OfMutex(u) && Look(m, t).kind == Active
    ensures Look(m, t).ret == NO_ERROR ==> Handed(m, inWait, u, t) && forall x :: !Handed(m, inWait - {t}, u, x)
    ensures Look(m, t).ret != NO_ERROR ==> forall x :: Handed(m, inWait - {t}, u, x) <==> Handed(m, inWait, u, x)
  {
    OneHanded(m, inWait, mutexes, u);
    forall x
      ensures Handed(m, inWait - {t}, u, x) <==> Handed(m, inWait, u, x) && x != t
    {
    }
    if Look(m, t).ret == NO_ERROR {
      assert Handed(m, inWait, u, t);
    }
  }

  lemma ReleaseOwners(k: Kernel, u: nat)
    requires KInv(k) && u in k.mutexes && k.mutexes[u].holder.Some?
    ensures Owners(ReleaseMutex(k, u), u) ==
              if k.mutexes[u].count > 1 && Queued(k, u) != [] then {Queued(k, u)[0]} else {}
  {
    hide Inv, WakeOne;
    var w := OfMutex(u);
    var k' := ReleaseMutex(k, u);
    QueuedOn(k, w);
    WakeOneWoken(k.s, w, true, NO_ERROR);
    var q := if k.mutexes[u].count > 1 && Queued(k, u) != [] then [Queued(k, u)[0]] else [];
    assert forall x :: x in q ==> x in Queued(k, u);
    HandedByRelease(k.s.threads, k'.s.threads, k.inWait, k.mutexes, u, q);
    assert Owners(k', u) == Elems(q);
  }

  lemma HandedByRelease(m: Threads, m': Threads, inWait: InWait, mutexes: Mutexes, u: nat, q: seq<Tid>)
    requires MutexOk(m, inWait, mutexes) && u in mutexes && mutexes[u].holder.Some?
    requires Woken(m, m', q, NO_ERROR)
    requires forall t :: t in q ==> t in inWait && inWait[t].w == OfMutex(u)
    ensures forall x :: Handed(m', inWait, u, x) <==> x in q
  {
    OneHanded(m, inWait, mutexes, u);
    forall x
      ensures Handed(m', inWait, u, x) <==> x in q
    {
      assert !Handed(m, inWait, u, x);
      assert Look(m', x) == if x in q then View(Active, None, NO_ERROR) else Look(m, x);
    }
  }

  // ---------- first come, first served ----------

  predicate InfiniteOnly(run: seq<Step>, u: nat) {
    forall st :: st in run && st.Acquire? && st.m == u ==> st.timeout == None
  }

  ghost predicate NoTimedWaiter(k: Kernel, u: nat) {
    forall t :: t in k.inWait && k.inWait[t].w == OfMutex(u) ==> !k.inWait[t].timed
  }

  /** The thread this step puts in line for u, if any. */
  function Arrives(k: Kernel, st: Step, u: nat): seq<Tid> {
    if st.Acquire? && st.m == u && st.timeout != Some(0) then [k.s.current] else []
  }

  /** The thread that becomes owner of u between the two states, if any. */
  ghost function Granted(k: Kernel, k': Kernel, u: nat): seq<Tid> {
    if t :| t in Owners(k', u) && t !in Owners(k, u) then [t] else []
  }

  ghost function Arrivals(k: Kernel, run: seq<Step>, u: nat): seq<Tid> {
    if run == [] then [] else
      Arrivals(k, run[..|run| - 1], u) + Arrives(After(k, run[..|run| - 1]), run[|run| - 1], u)
  }

  ghost function Grants(k: Kernel, run: seq<Step>, u: nat): seq<Tid> {
    if run == [] then [] else
      Grants(k, run[..|run| - 1], u) + Granted(After(k, run[..|run| - 1]), After(k, run), u)
  }

  /** A waiter is never left behind on a mutex nobody owns. */
  ghost predicate Served(k: Kernel, u: nat) {
    Queued(k, u) != [] ==> Owners(k, u) != {}
  }

  lemma MutexStays(k: Kernel, st: Step, u: nat)
    requires KInv(k) && Enabled(k, st) && u in k.mutexes
    ensures u in Apply(k, st).mutexes
  {
    hide Inv, Rest, Block, Resched, WakeOne, WakeAll, Retire, ResumeThread, FireDue;
    if st.Tick? {
      FireDueMutexes(k, st.now);
    }
  }

  /** The queue of u is served from its head by release and joined at its tail; timeouts aside, nothing else touches it. */
  lemma QueueStep(k: Kernel, st: Step, u: nat)
    requires KInv(k) && Enabled(k, st) && u in k.mutexes
    requires st.Tick? ==> NoTimedWaiter(k, u)
    ensures Queued(Apply(k, st), u) ==
              if st.Release? && st.m == u then
                if k.mutexes[u].count > 1 && Queued(k, u) != [] then Queued(k, u)[1..] else Queued(k, u)
              else Queued(k, u) + if JoinedQueue(k, st) == Some(OfMutex(u)) then [k.s.current] else []
  {
    hide KInv, Apply, Enabled, JoinedQueue;
    if st.Release? && st.m == u {
      ReleaseQueue(k, u);
      ReleaseIs(k, u);
    } else {
      NobodyReleased(k, st, u);
      StepQueue(k, st, OfMutex(u));
    }
  }

  lemma ReleaseIs(k: Kernel, u: nat)
    ensures Apply(k, Release(u)) == ReleaseMutex(k, u)
  {
    hide ReleaseMutex;
  }

  /** A release serves the head of the queue. */
  lemma ReleaseQueue(k: Kernel, u: nat)
    requires KInv(k) && u in k.mutexes
    ensures Queued(ReleaseMutex(k, u), u) ==
              if k.mutexes[u].count > 1 && Queued(k, u) != [] then Queued(k, u)[1..] else Queued(k, u)
  {
    hide Inv, Rest, WakeOne, Woken;
    WakeOneWoken(k.s, OfMutex(u), true, NO_ERROR);
  }

  /** A step that neither releases u nor lets time pass over a timed waiter may wake nobody on u. */
  lemma NobodyReleased(k: Kernel, st: Step, u: nat)
    requires KInv(k) && !(st.Release? && st.m == u) && (st.Tick? ==> NoTimedWaiter(k, u))
    ensures forall t :: t in Waiting(k.s, OfMutex(u)) && t in k.inWait ==> !MayWake(st, k.inWait[t])
  {
    hide KInv, Look;
    QueuedOn(k, OfMutex(u));
  }

  lemma UntimedStep(k: Kernel, st: Step, u: nat)
    requires KInv(k) && Enabled(k, st) && NoTimedWaiter(k, u)
    requires st.Acquire? && st.m == u ==> st.timeout == None
    ensures NoTimedWaiter(Apply(k, st), u)
  {
    StepCalls(k, st);
    hide Inv, Rest, Apply;
  }

  /** Without timeouts count is the owner plus the queue, and positive exactly when the mutex is owned. */
  lemma UntimedCount(k: Kernel, u: nat)
    requires KInv(k) && u in k.mutexes && NoTimedWaiter(k, u) && Served(k, u)
    ensures k.mutexes[u].count == |Owners(k, u)| + |Queued(k, u)|
    ensures k.mutexes[u].count > 0 <==> Owners(k, u) != {}
  {
    MutexAccounting(k, u);
    hide Inv;
    assert TimedOut(k, u) == {};
  }

  /** Only the owner releases. */
  lemma ReleaserOwns(k: Kernel, u: nat)
    requires KInv(k) && Enabled(k, Release(u))
    ensures u in k.mutexes && Owners(k, u) == {k.s.current}
  {
    hide KInv, Owners;
    AtMostOneOwner(k, u);
  }

  /** The running thread is on no wait queue. */
  lemma CurrentNotQueued(k: Kernel, u: nat)
    requires KInv(k)
    ensures k.s.current !in Queued(k, u)
  {
    hide KInv;
    QueuedOn(k, OfMutex(u));
    CurrentFacts(k);
  }

  /** Only an acquire of a taken mutex joins its queue. */
  lemma JoinsMutex(k: Kernel, st: Step, u: nat)
    requires u in k.mutexes
    ensures JoinedQueue(k, st) == Some(OfMutex(u)) <==>
              st.Acquire? && st.m == u && k.mutexes[u].count > 0 && st.timeout != Some(0)
  {
  }

  /** What an enabled acquire or release knows about the mutex. */
  lemma CallerFacts(k: Kernel, st: Step, u: nat)
    requires KInv(k) && Enabled(k, st) && u in k.mutexes
    ensures st.Release? && st.m == u ==> Owners(k, u) == {k.s.current}
    ensures k.s.current !in Queued(k, u)
    ensures JoinedQueue(k, st) == Some(OfMutex(u)) <==>
              st.Acquire? && st.m == u && k.mutexes[u].count > 0 && st.timeout != Some(0)
  {
    hide KInv, Enabled, Owners, Queued, JoinedQueue;
    if st.Release? && st.m == u {
      ReleaserOwns(k, u);
    }
    CurrentNotQueued(k, u);
    JoinsMutex(k, st, u);
  }

  /** One step: whoever was in line, plus the arrival, is whoever is granted the mutex, plus the new line. */
  lemma FifoStep(k: Kernel, st: Step, u: nat)
    requires KInv(k) && Enabled(k, st) && u in k.mutexes && NoTimedWaiter(k, u) && Served(k, u)
    requires st.Acquire? && st.m == u ==> st.timeout == None
    ensures NoTimedWaiter(Apply(k, st), u) && Served(Apply(k, st), u)
    ensures Queued(k, u) + Arrives(k, st, u) == Granted(k, Apply(k, st), u) + Queued(Apply(k, st), u)
  {
    hide KInv, Apply, Enabled, Owners, Queued, NoTimedWaiter, JoinedQueue;
    var k' := Apply(k, st);
    UntimedStep(k, st, u);
    UntimedCount(k, u);
    OwnersStep(k, st, u);
    QueueStep(k, st, u);
    CallerFacts(k, st, u);
    if st.Release? && st.m == u {
      assert |Owners(k, u)| == 1;
      if Queued(k, u) != [] {
        assert Queued(k, u)[0] in Queued(k, u);
        assert Granted(k, k', u) == [Queued(k, u)[0]];
      } else {
        assert Granted(k, k', u) == [];
      }
    } else if TakesFree(k, st, u) {
      assert Queued(k, u) == [];
      assert Granted(k, k', u) == [k.s.current];
    } else {
      assert Granted(k, k', u) == [];
    }
  }

  /** First come, first served over every run in which u is acquired without timeouts: the
      arrivals are exactly the grants, in the same order, followed by those still in line; and no
      thread is left in line while nobody owns the mutex. */
  lemma {:induction false} FirstComeFirstServed(k: Kernel, run: seq<Step>, u: nat)
    requires KInv(k) && Legal(k, run) && u in k.mutexes && NoTimedWaiter(k, u) && Served(k, u)
    requires InfiniteOnly(run, u)
    ensures KInv(After(k, run)) && u in After(k, run).mutexes
    ensures NoTimedWaiter(After(k, run), u) && Served(After(k, run), u)
    ensures Queued(k, u) + Arrivals(k, run, u) == Grants(k, run, u) + Queued(After(k, run), u)
  {
    hide KInv, Apply, Enabled, Served, NoTimedWaiter, Arrives, Granted, Queued;
    if run != [] {
      var before, st := run[..|run| - 1], run[|run| - 1];
      assert forall x :: x in before ==> x in run;
      assert st in run;
      FirstComeFirstServed(k, before, u);
      var k1 := After(k, before);
      StepKeepsInv(k1, st);
      MutexStays(k1, st, u);
      FifoStep(k1, st, u);
      assert Queued(k, u) + Arrivals(k, run, u) == Queued(k, u) + Arrivals(k, before, u) + Arrives(k1, st, u);
      assert Grants(k, before, u) + (Queued(k1, u) + Arrives(k1, st, u))
          == Grants(k, before, u) + Queued(k1, u) + Arrives(k1, st, u);
      assert Grants(k, before, u) + (Granted(k1, Apply(k1, st), u) + Queued(Apply(k1, st), u))
          == Grants(k, run, u) + Queued(After(k, run), u);
    }
  }

  /** A fresh mutex satisfies the hypotheses above. */
  lemma FreshMutex(k: Kernel, u: nat)
    requires KInv(k) && Enabled(k, MutexInit(u))
    ensures var k' := Apply(k, MutexInit(u));
            NoTimedWaiter(k', u) && Served(k', u) && Queued(k', u) == [] && Owners(k', u) == {}
  {
    hide Inv;
    assert forall t :: !Handed(k.s.threads, k.inWait, u, t);
  }

  // ---------- with timeouts a free mutex can strand its waiters ----------

  /** Exactly when a step leaves somebody waiting on a mutex nobody owns: an acquire that finds the
      mutex free but `count` still positive, because a timed-out waiter has not run yet. */
  lemma StrandedExactlyWhen(k: Kernel, st: Step, u: nat)
    requires KInv(k) && Enabled(k, st) && u in k.mutexes && Served(k, u)
    ensures !Served(Apply(k, st), u) <==>
              st.Acquire? && st.m == u && st.timeout != Some(0) && k.mutexes[u].count > 0 && Owners(k, u) == {}
    ensures !Served(Apply(k, st), u) ==> TimedOut(k, u) != {}
  {
    hide KInv, Apply, Enabled, Owners, Queued, JoinedQueue, TimedOut;
    MutexAccounting(k, u);
    OwnersStep(k, st, u);
    CallerFacts(k, st, u);
    if st.Tick? {
      CurrentCalls(k, st);
      TickQueue(k, st.now, u);
      if Queued(Apply(k, st), u) != [] {
        assert Queued(Apply(k, st), u)[0] in Queued(k, u);
      }
    } else {
      QueueStep(k, st, u);
    }
  }

  /** The acquire that strands a waiter, as its caller could see it coming. */
  ghost predicate Strands(k: Kernel, st: Step, u: nat) {
    st.Acquire? && st.m == u && st.timeout != Some(0) && MutexOf(k, u).count > 0 && Owners(k, u) == {}
  }

  /** Nobody waits on u without an owner, at any point of the run. */
  ghost predicate AlwaysServed(k: Kernel, run: seq<Step>, u: nat) {
    forall i :: 0 <= i <= |run| ==> Served(After(k, run[..i]), u)
  }

  ghost predicate NeverStrands(k: Kernel, run: seq<Step>, u: nat) {
    forall i :: 0 <= i < |run| ==> !Strands(After(k, run[..i]), run[i], u)
  }

  lemma AlwaysServedCons(k: Kernel, run: seq<Step>, u: nat)
    requires run != []
    ensures AlwaysServed(k, run, u) <==> AlwaysServed(k, run[..|run| - 1], u) && Served(After(k, run), u)
  {
    hide Served, After;
    var before := run[..|run| - 1];
    assert run[..|run|] == run && before[..|before|] == before;
    assert forall i :: 0 <= i <= |before| ==> before[..i] == run[..i];
  }

  lemma NeverStrandsCons(k: Kernel, run: seq<Step>, u: nat)
    requires run != []
    ensures NeverStrands(k, run, u) <==>
              NeverStrands(k, run[..|run| - 1], u) && !Strands(After(k, run[..|run| - 1]), run[|run| - 1], u)
  {
    hide Strands, After;
    var before := run[..|run| - 1];
    assert forall i :: 0 <= i < |before| ==> before[..i] == run[..i] && before[i] == run[i];
  }

  /** Over any run, timeouts and all: the mutex is served throughout exactly when no acquire in the
      run finds it without owner and `count` still positive. */
  lemma {:induction false} ServedThroughoutExactly(k: Kernel, run: seq<Step>, u: nat)
    requires KInv(k) && Legal(k, run) && u in k.mutexes && Served(k, u)
    ensures KInv(After(k, run)) && u in After(k, run).mutexes
    ensures AlwaysServed(k, run, u) <==> NeverStrands(k, run, u)
  {
    hide KInv, Apply, Enabled, Served, Strands, AlwaysServed, NeverStrands;
    if run == [] {
      ServedAtFirst(k, u);
    } else {
      var before, st := run[..|run| - 1], run[|run| - 1];
      ServedThroughoutExactly(k, before, u);
      AlwaysServedCons(k, run, u);
      NeverStrandsCons(k, run, u);
      StepKeepsInv(After(k, before), st);
      MutexStays(After(k, before), st, u);
      if AlwaysServed(k, before, u) {
        ServedAtLast(k, before, u);
        StrandedExactly(After(k, before), st, u);
      }
    }
  }

  lemma StrandedExactly(k: Kernel, st: Step, u: nat)
    requires KInv(k) && Enabled(k, st) && u in k.mutexes && Served(k, u)
    ensures Served(Apply(k, st), u) <==> !Strands(k, st, u)
  {
    hide KInv, Apply, Enabled, Served, Owners;
    StrandedExactlyWhen(k, st, u);
  }

  lemma ServedAtFirst(k: Kernel, u: nat)
    requires Served(k, u)
    ensures AlwaysServed(k, [], u) && NeverStrands(k, [], u)
  {
    hide Served;
    assert forall i :: 0 <= i <= 0 ==> After(k, [][..i]) == k;
  }

  lemma ServedAtLast(k: Kernel, run: seq<Step>, u: nat)
    requires AlwaysServed(k, run, u)
    ensures Served(After(k, run), u)
  {
    hide Served, After;
    assert run[..|run|] == run;
  }

  lemma CurrentCalls(k: Kernel, st: Step)
    requires Enabled(k, st) && !st.Return?
    ensures k.s.current !in k.inWait
  {
  }

  lemma TickCalls(k: Kernel, now: int)
    requires KInv(k)
    ensures KInv(TickTimers(k, now)) && TickTimers(k, now).inWait == k.inWait
  {
    hide KInv, Scheduler.Preempt, Charge, FireDue;
    TickOk(k, now);
    FireDueOk(k, now);
  }

  /** A tick takes threads out of the queue of u, never those without a timeout, and puts none in. */
  lemma TickQueue(k: Kernel, now: int, u: nat)
    requires KInv(k)
    ensures forall t :: t in Queued(Apply(k, Tick(now)), u) ==> t in Queued(k, u)
    ensures forall t :: t in Queued(k, u) && t in k.inWait && !k.inWait[t].timed ==> t in Queued(Apply(k, Tick(now)), u)
  {
    hide KInv, TickTimers, Look, Queued;
    TickCalls(k, now);
    TickWaked(k, now);
    QueuedSet(k, u);
    QueuedSet(Apply(k, Tick(now)), u);
  }

  /** Once stranded behind a mutex nobody owns, a thread that waits without timeout waits forever:
      no run of the kernel ever wakes it. */
  lemma {:induction false} StrandedForever(k: Kernel, run: seq<Step>, u: nat, t: Tid)
    requires KInv(k) && Legal(k, run) && u in k.mutexes && Owners(k, u) == {}
    requires t in Queued(k, u) && t in k.inWait && !k.inWait[t].timed
    ensures KInv(After(k, run)) && u in After(k, run).mutexes && Owners(After(k, run), u) == {}
    ensures t in Queued(After(k, run), u) && t in After(k, run).inWait && !After(k, run).inWait[t].timed
  {
    hide KInv, Apply, Enabled, Owners, Queued;
    if run != [] {
      var before, st := run[..|run| - 1], run[|run| - 1];
      StrandedForever(k, before, u, t);
      StrandedStep(After(k, before), st, u, t);
    }
  }

  lemma StrandedStep(k: Kernel, st: Step, u: nat, t: Tid)
    requires KInv(k) && Enabled(k, st) && u in k.mutexes && Owners(k, u) == {}
    requires t in Queued(k, u) && t in k.inWait && !k.inWait[t].timed
    ensures var k' := Apply(k, st);
            && KInv(k') && u in k'.mutexes && Owners(k', u) == {}
            && t in Queued(k', u) && t in k'.inWait && !k'.inWait[t].timed
  {
    hide KInv, Apply, Enabled, Owners, Queued, JoinedQueue, Look;
    StepKeepsInv(k, st);
    MutexStays(k, st, u);
    MutexAccounting(k, u);
    OwnersStep(k, st, u);
    CallerFacts(k, st, u);
    StepCalls(k, st);
    if st.Tick? {
      TickQueue(k, st.now, u);
    } else {
      QueueStep(k, st, u);
    }
    assert t != k.s.current;
  }
}
