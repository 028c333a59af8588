/** Threads of equal priority that only yield take turns. */
module RoundRobin {
  import opened Basics
  import opened Scheduler
  import opened SchedulerInv
  import opened SchedulerPlaces

  /** The running thread followed by the ready threads of its priority. */
  function Ring(s: Sched): seq<Tid> {
    [s.current] + s.run[At(s, s.current).priority]
  }

  function Yields(s: Sched, n: nat): Sched {
    if n == 0 then s else Yield(Yields(s, n - 1))
  }

  lemma YieldRotates(s: Sched)
    requires Inv(s) && AtTop(s)
    ensures var s' := Yield(s);
            && Inv(s') && AtTop(s')
            && Ring(s') == Ring(s)[1..] + Ring(s)[..1]
            && At(s', s'.current).priority == At(s, s.current).priority
            && (forall q :: 0 <= q < 32 && q != At(s, s.current).priority ==> s'.run[q] == s.run[q])
  {
    hide Inv, Top;
    YieldOk(s);
    var p := At(s, s.current).priority;
    var r := At(s, s.current).(state := Ready, quantum := 0);
    var s1 := PushTail(Put(s, s.current, r), s.current);
    RingMembers(s);
    NothingAbove(s);
    var q := s.run[p] + [s.current];
    assert s1.run == s.run[p := q];
    TopIs(s1.run, p);
    var s' := Yield(s);
    assert s'.run == s.run[p := q[1..]] && s'.current == q[0];
    assert q[0] in Ring(s);
    assert [q[0]] + q[1..] == q;
    assert q == Ring(s)[1..] + Ring(s)[..1];
  }

  lemma TopIs(run: RunQueues, p: Priority)
    requires run[p] != [] && forall q :: p < q < 32 ==> run[q] == []
    ensures Top(run, 31) == p
  {
  }

  lemma RingMembers(s: Sched)
    requires Inv(s)
    ensures forall t :: t in Ring(s) ==> At(s, t).priority == At(s, s.current).priority
  {
    hide WaitsOk, ThreadsOk;
  }

  /** After j yields the ring of n threads has turned by j. */
  lemma {:induction false} YieldsTurn(s: Sched, j: nat)
    requires Inv(s) && AtTop(s) && j <= |Ring(s)|
    ensures var s' := Yields(s, j);
            && Inv(s') && AtTop(s')
            && Ring(s') == Ring(s)[j..] + Ring(s)[..j]
            && At(s', s'.current).priority == At(s, s.current).priority
            && (forall q :: 0 <= q < 32 && q != At(s, s.current).priority ==> s'.run[q] == s.run[q])
  {
    hide Inv, AtTop, Yield;
    if j == 0 {
    } else {
      YieldsTurn(s, j - 1);
      YieldRotates(Yields(s, j - 1));
      var r := Ring(s);
      assert (r[j - 1..] + r[..j - 1])[1..] + (r[j - 1..] + r[..j - 1])[..1] == r[j..] + r[..j];
    }
  }

  /** Round robin: from any state with n threads at the top priority, n yields run each of them
      exactly once, in queue order, and restore every run queue and the running thread. */
  lemma RoundRobinWindow(s: Sched)
    requires Inv(s) && AtTop(s)
    ensures var r := Ring(s); var n := |r|;
            && Distinct(r)
            && (forall j :: 0 <= j < n ==> Yields(s, j).current == r[j])
            && Yields(s, n).current == s.current && Yields(s, n).run == s.run
            && Inv(Yields(s, n)) && AtTop(Yields(s, n))
  {
    var r := Ring(s);
    RingDistinct(s);
    hide Inv, AtTop, Yield;
    forall j | 0 <= j < |r|
      ensures Yields(s, j).current == r[j]
    {
      YieldsTurn(s, j);
      assert Ring(Yields(s, j))[0] == r[j];
    }
    YieldsTurn(s, |r|);
    var s', p := Yields(s, |r|), At(s, s.current).priority;
    assert Ring(s') == r;
    assert s'.run[p] == Ring(s')[1..] == s.run[p];
    assert s'.run == s.run;
  }

  lemma RingDistinct(s: Sched)
    requires Inv(s)
    ensures Distinct(Ring(s))
  {
    var q := s.run[At(s, s.current).priority];
    assert s.current !in q;
    hide WaitsOk;
    PushFacts(q, s.current);
  }
}
