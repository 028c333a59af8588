/**
 What timer_tick leaves behind: which timers are queued after all callbacks of the tick have
 cancelled and armed as they pleased, and exactly when one of them panics.
 */
module TickTheorems {
  import opened Basics
  import opened TimerQueue
  import opened TimerTick

  /** The last action on timer t. */
  function Last(acts: seq<Action>, t: Id): Option<Action> {
    if acts == [] then None
    else if acts[|acts| - 1].t == t then Some(acts[|acts| - 1])
    else Last(acts[..|acts| - 1], t)
  }

  /** Starting from q, what the actions leave of timer t: as it was if none is on t, otherwise what the last says. */
  ghost predicate Stands(q: Timers, acts: seq<Action>, e: Entry<Id>) {
    match Last(acts, e.who)
    case None => e in q
    case Some(Cancel(_)) => false
    case Some(Arm(_, due)) => e.due == due
  }

  predicate Queued(q: Timers, acts: seq<Action>, t: Id) {
    match Last(acts, t)
    case None => Has(q, t)
    case Some(Cancel(_)) => false
    case Some(Arm(_, _)) => true
  }

  /** No action arms a timer that is queued at that point. */
  ghost predicate NoClash(q: Timers, acts: seq<Action>) {
    forall i :: 0 <= i < |acts| && acts[i].Arm? ==> !Queued(q, acts[..i], acts[i].t)
  }

  // ---------- one callback ----------

  lemma {:induction false} CallbackConcat(q: Timers, a: seq<Action>, b: seq<Action>)
    ensures Callback(q, a + b) == if Callback(q, a).Some? then Callback(Callback(q, a).value, b) else None
    decreases |a|
  {
    hide Act;
    if a == [] {
      assert a + b == b;
    } else {
      assert (a + b)[0] == a[0] && (a + b)[1..] == a[1..] + b;
      if Act(q, a[0]).Some? {
        CallbackConcat(Act(q, a[0]).value, a[1..], b);
      }
    }
  }

  lemma CallbackOne(q: Timers, a: Action)
    ensures Callback(q, [a]) == Act(q, a)
  {
    hide Act;
    assert [a][1..] == [];
  }

  /** One action: it is refused exactly if it arms a queued timer; otherwise the timer is armed for
      its time or cancelled, and all others stand. */
  lemma ActLeaves(q: Timers, a: Action)
    requires Queue(q)
    ensures Act(q, a) == None <==> a.Arm? && Has(q, a.t)
    ensures Act(q, a).Some? ==>
              && Queue(Act(q, a).value)
              && forall e :: e in Act(q, a).value <==> if e.who == a.t then a.Arm? && e.due == a.due else e in q
  {
    hide Sorted, Unique, Has;
    match a
    case Cancel(t) =>
      RemoveFacts(q, t);
      forall e
        ensures e in Remove(q, t) <==> e in q && e.who != t
      {
        RemoveMembers(q, t, e);
      }
    case Arm(t, due) =>
      if !Has(q, t) {
        InsertFacts(q, Entry(due, t));
        InsertMembers(q, Entry(due, t));
        forall e | e in q
          ensures e.who != t
        {
          HasMember(q, e);
        }
      }
  }

  lemma HasIs(q: Timers, t: Id)
    ensures Has(q, t) <==> exists e :: e in q && e.who == t
  {
    if Has(q, t) {
      var i :| 0 <= i < |q| && q[i].who == t;
      assert q[i] in q;
    }
    if e :| e in q && e.who == t {
      HasMember(q, e);
    }
  }

  /** Whatever stands is what is queued. */
  lemma StandsQueued(q: Timers, acts: seq<Action>, q': Timers, t: Id)
    requires forall e :: e in q' <==> Stands(q, acts, e)
    ensures Has(q', t) <==> Queued(q, acts, t)
  {
    HasIs(q', t);
    HasIs(q, t);
    match Last(acts, t)
    case None =>
      assert forall e: Entry<Id> :: e.who == t ==> (Stands(q, acts, e) <==> e in q);
    case Some(Cancel(_)) =>
    case Some(Arm(_, due)) => assert Stands(q, acts, Entry(due, t));
  }

  /** Any sequence of actions: refused exactly if it arms a queued timer, and otherwise exactly what stands is queued. */
  lemma {:induction false} CallbackLeaves(q: Timers, acts: seq<Action>)
    requires Queue(q)
    ensures Callback(q, acts).Some? <==> NoClash(q, acts)
    ensures Callback(q, acts).Some? ==> Queue(Callback(q, acts).value)
    ensures Callback(q, acts).Some? ==> forall e :: e in Callback(q, acts).value <==> Stands(q, acts, e)
    decreases |acts|
  {
    hide Queue, Act, Has;
    if acts != [] {
      var before, a := acts[..|acts| - 1], acts[|acts| - 1];
      assert acts == before + [a];
      CallbackLeaves(q, before);
      CallbackConcat(q, before, [a]);
      ClashLast(q, acts);
      if Callback(q, before).Some? {
        var q1 := Callback(q, before).value;
        CallbackOne(q1, a);
        ActLeaves(q1, a);
        StandsQueued(q, before, q1, a.t);
        hide Queued;
        forall e
          ensures Stands(q, acts, e) <==> if e.who == a.t then a.Arm? && e.due == a.due else Stands(q, before, e)
        {
        }
      }
    }
  }

  lemma ClashLast(q: Timers, acts: seq<Action>)
    requires acts != []
    ensures var before, a := acts[..|acts| - 1], acts[|acts| - 1];
            NoClash(q, acts) <==> NoClash(q, before) && !(a.Arm? && Queued(q, before, a.t))
  {
    hide Queued;
    var before := acts[..|acts| - 1];
    assert forall i :: 0 <= i < |before| ==> before[..i] == acts[..i] && before[i] == acts[i];
  }

  // ---------- the whole tick ----------

  /** What a tick does to the queue if exactly these timers fire: each is taken out, then its callback acts. */
  function Events(fired: seq<Id>, script: Script): seq<Action> {
    if fired == [] then []
    else [Cancel(fired[0])] + script(fired[0]) + Events(fired[1..], script)
  }

  lemma {:induction false} EventsConcat(a: seq<Id>, b: seq<Id>, script: Script)
    ensures Events(a + b, script) == Events(a, script) + Events(b, script)
  {
    if a == [] {
      assert a + b == b;
    } else {
      assert (a + b)[0] == a[0] && (a + b)[1..] == a[1..] + b;
      EventsConcat(a[1..], b, script);
    }
  }

  /** Firing the head and running its callback. */
  lemma TurnIs(q: Timers, script: Script, rest: seq<Id>)
    requires q != []
    ensures var r := Callback(q[1..], script(q[0].who));
            Callback(q, Events([q[0].who] + rest, script)) ==
              if r.Some? then Callback(r.value, Events(rest, script)) else None
  {
    hide Has;
    var h := q[0].who;
    var acts := script(h);
    assert ([h] + rest)[1..] == rest;
    assert Events([h] + rest, script) == [Cancel(h)] + acts + Events(rest, script);
    CallbackConcat(q, [Cancel(h)] + acts, Events(rest, script));
    CallbackConcat(q, [Cancel(h)], acts);
    CallbackOne(q, Cancel(h));
  }

  /** The tick is one long callback of everything it fires; it panics in the callback of the last. */
  lemma {:induction false} TickIsCallback(q: Timers, now: int, script: Script)
    requires Queue(q) && Positive(script, now)
    ensures var o := Tick(q, now, script);
            && (o.Done? ==> Callback(q, Events(o.fired, script)) == Some(o.queue))
            && (o.Panic? ==> o.fired != [] && Callback(q, Events(o.fired, script)) == None
                             && Callback(q, Events(o.fired[..|o.fired| - 1], script)).Some?)
    decreases |Due(q, now)|
  {
    hide Queue, Positive, Callback, Events;
    if q == [] || now < q[0].due {
      NoEvents(q, script);
    } else {
      var h := q[0].who;
      TurnShortens(q, now, script);
      var r := Callback(q[1..], script(h));
      if r == None {
        TurnIs(q, script, []);
        NoEvents(q, script);
        assert [h] + [] == [h] && [h][..0] == [];
      } else {
        var o := Tick(r.value, now, script);
        TickIsCallback(r.value, now, script);
        TurnIs(q, script, o.fired);
        if o.Panic? {
          var n := |o.fired|;
          TurnIs(q, script, o.fired[..n - 1]);
          assert ([h] + o.fired)[..n] == [h] + o.fired[..n - 1];
        }
      }
    }
  }

  lemma NoEvents(q: Timers, script: Script)
    ensures Callback(q, Events([], script)) == Some(q)
  {
  }

  /** The whole tick, exactly. With no arming of a queued timer on the way it fires all that are due
      and not cancelled, and then queued is what stands: every timer as it was unless it fired or a
      callback acted on it, and as the last callback to act on it left it otherwise. And it panics if
      and only if a queued timer is armed, in the callback of the last timer fired. */
  lemma TickExactly(q: Timers, now: int, script: Script)
    requires Queue(q) && Positive(script, now)
    ensures var (o, f) := (Tick(q, now, script), Fires(Due(q, now), script, {}));
            && (o.Done? <==> NoClash(q, Events(f, script)))
            && (o.Done? ==> o.fired == f && Queue(o.queue))
            && (o.Done? ==> forall e :: e in o.queue <==> Stands(q, Events(f, script), e))
            && (o.Panic? ==> o.fired != [] && o.fired <= f && !NoClash(q, Events(o.fired, script))
                             && NoClash(q, Events(o.fired[..|o.fired| - 1], script)))
  {
    hide Queue, Positive, Callback, Events, NoClash, Stands;
    var (o, f) := (Tick(q, now, script), Fires(Due(q, now), script, {}));
    TickFiresDue(q, now, script);
    TickIsCallback(q, now, script);
    CallbackLeaves(q, Events(o.fired, script));
    if o.Panic? {
      CallbackLeaves(q, Events(o.fired[..|o.fired| - 1], script));
      CallbackLeaves(q, Events(f, script));
      var rest := f[|o.fired|..];
      assert f == o.fired + rest;
      EventsConcat(o.fired, rest, script);
      CallbackConcat(q, Events(o.fired, script), Events(rest, script));
    }
  }

  // ---------- order ----------

  /** The timers on which there is an action. */
  function Touched(acts: seq<Action>): set<Id> {
    set i | 0 <= i < |acts| :: acts[i].t
  }

  /** q without the timers of gone, in the same order. */
  function Drop(q: Timers, gone: set<Id>): Timers {
    if q == [] then []
    else (if q[0].who in gone then [] else [q[0]]) + Drop(q[1..], gone)
  }

  lemma {:induction false} DropRemove(q: Timers, t: Id, gone: set<Id>)
    requires t in gone
    ensures Drop(Remove(q, t), gone) == Drop(q, gone)
  {
    if q != [] && q[0].who != t {
      var r := [q[0]] + Remove(q[1..], t);
      assert r[1..] == Remove(q[1..], t);
      DropRemove(q[1..], t, gone);
    }
  }

  lemma {:induction false} DropInsert(q: Timers, e: Entry<Id>, gone: set<Id>)
    requires e.who in gone
    ensures Drop(Insert(q, e), gone) == Drop(q, gone)
  {
    if q == [] || q[0].due > e.due {
      assert ([e] + q)[1..] == q;
    } else {
      var r := [q[0]] + Insert(q[1..], e);
      assert r[1..] == Insert(q[1..], e);
      DropInsert(q[1..], e, gone);
    }
  }

  lemma {:induction false} CallbackOrder(q: Timers, acts: seq<Action>, gone: set<Id>)
    requires Callback(q, acts).Some? && forall i :: 0 <= i < |acts| ==> acts[i].t in gone
    ensures Drop(Callback(q, acts).value, gone) == Drop(q, gone)
    decreases |acts|
  {
    hide Has, Remove, Insert, Drop;
    if acts != [] {
      match acts[0] {
        case Cancel(t) => DropRemove(q, t, gone);
        case Arm(t, due) => DropInsert(q, Entry(due, t), gone);
      }
      assert forall i :: 0 <= i < |acts| - 1 ==> acts[1..][i] == acts[i + 1];
      CallbackOrder(Act(q, acts[0]).value, acts[1..], gone);
    }
  }

  /** The timers on which nobody acted and that did not fire are left in their order. */
  lemma UntouchedStay(q: Timers, now: int, script: Script)
    requires Queue(q) && Positive(script, now) && Tick(q, now, script).Done?
    ensures var o := Tick(q, now, script); var gone := Touched(Events(o.fired, script));
            Drop(o.queue, gone) == Drop(q, gone)
  {
    hide Queue, Positive, Callback, Events, Drop;
    var o := Tick(q, now, script);
    TickIsCallback(q, now, script);
    CallbackOrder(q, Events(o.fired, script), Touched(Events(o.fired, script)));
  }

  /** If callbacks only cancel, the tick leaves the queue without what fired and what was cancelled. */
  lemma CancellingTick(q: Timers, now: int, script: Script)
    requires Queue(q) && Positive(script, now)
    requires forall t: Id, i :: 0 <= i < |script(t)| ==> script(t)[i].Cancel?
    ensures var f := Fires(Due(q, now), script, {});
            Tick(q, now, script) == Done(f, Drop(q, Touched(Events(f, script))))
  {
    hide Queue, Positive, Stands, Queued, Drop, Has;
    var f := Fires(Due(q, now), script, {});
    var acts := Events(f, script);
    OnlyCancels(f, script);
    TickExactly(q, now, script);
    var o := Tick(q, now, script);
    UntouchedStay(q, now, script);
    forall e | e in o.queue
      ensures e.who !in Touched(acts)
    {
      LastIsThere(acts, e.who);
      CancelledStandsNot(q, acts, e);
    }
    NothingToDrop(o.queue, Touched(acts));
  }

  lemma CancelledStandsNot(q: Timers, acts: seq<Action>, e: Entry<Id>)
    requires Stands(q, acts, e)
    ensures Last(acts, e.who) == None || Last(acts, e.who).value.Arm?
  {
  }

  lemma {:induction false} OnlyCancels(fired: seq<Id>, script: Script)
    requires forall t: Id, i :: 0 <= i < |script(t)| ==> script(t)[i].Cancel?
    ensures forall i :: 0 <= i < |Events(fired, script)| ==> Events(fired, script)[i].Cancel?
  {
    if fired != [] {
      OnlyCancels(fired[1..], script);
      assert forall i :: 0 <= i < |script(fired[0])| ==> script(fired[0])[i].Cancel?;
    }
  }

  lemma {:induction false} LastIsThere(acts: seq<Action>, t: Id)
    ensures Last(acts, t) == None ==> t !in Touched(acts)
    ensures Last(acts, t).Some? ==> Last(acts, t).value in acts
    decreases |acts|
  {
    if acts != [] {
      var before := acts[..|acts| - 1];
      LastIsThere(before, t);
      assert acts == before + [acts[|acts| - 1]];
      forall i | 0 <= i < |acts| && acts[i].t == t
        ensures Last(acts, t).Some?
      {
        if i < |before| {
          assert before[i].t in Touched(before);
        }
      }
    }
  }

  lemma {:induction false} NothingToDrop(q: Timers, gone: set<Id>)
    requires forall e :: e in q ==> e.who !in gone
    ensures Drop(q, gone) == q
  {
    if q != [] {
      assert q == [q[0]] + q[1..];
      NothingToDrop(q[1..], gone);
    }
  }
}
