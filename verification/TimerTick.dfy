/**
 timer_tick of kernel/timer.c with any callbacks: each callback may cancel timers and arm
 timers again, itself included, with a positive delay.
 */
module TimerTick {
  import opened Basics
  import opened TimerQueue

  type Id = nat
  type Timers = seq<Entry<Id>>

  /** What a callback does to the queue; due is the time at which an armed timer expires. */
  datatype Action = Cancel(t: Id) | Arm(t: Id, due: int)

  /** The callback of every timer. */
  type Script = Id -> seq<Action>

  /** timer_cancel and timer_set_oneshot; arming a queued timer panics. */
  function Act(q: Timers, a: Action): Option<Timers> {
    match a
    case Cancel(t) => Some(Remove(q, t))
    case Arm(t, due) => if Has(q, t) then None else Some(Insert(q, Entry(due, t)))
  }

  function Callback(q: Timers, acts: seq<Action>): Option<Timers>
    decreases |acts|
  {
    if acts == [] then Some(q)
    else match Act(q, acts[0])
      case None => None
      case Some(q') => Callback(q', acts[1..])
  }

  /** Timers are armed with a positive delay: they expire after the tick that runs the callback. */
  predicate LaterOnly(acts: seq<Action>, now: int) {
    forall i :: 0 <= i < |acts| && acts[i].Arm? ==> acts[i].due > now
  }

  ghost predicate Positive(script: Script, now: int) {
    forall t: Id :: LaterOnly(script(t), now)
  }

  /** The timers due at `now`, in queue order. */
  function Due(q: Timers, now: int): seq<Id> {
    if q == [] then [] else (if q[0].due <= now then [q[0].who] else []) + Due(q[1..], now)
  }

  function Cancelled(acts: seq<Action>): set<Id> {
    set i | 0 <= i < |acts| && acts[i].Cancel? :: acts[i].t
  }

  /** Of the timers d, those that fire: all but those that the callback of an earlier one cancels. */
  function Fires(d: seq<Id>, script: Script, gone: set<Id>): seq<Id> {
    if d == [] then []
    else if d[0] in gone then Fires(d[1..], script, gone)
    else [d[0]] + Fires(d[1..], script, gone + Cancelled(script(d[0])))
  }

  /** d without the members of gone. */
  function Keep(d: seq<Id>, gone: set<Id>): seq<Id> {
    if d == [] then []
    else (if d[0] in gone then [] else [d[0]]) + Keep(d[1..], gone)
  }

  ghost predicate Queue(q: Timers) {
    Sorted(q) && Unique(q)
  }

  // ---------- one callback ----------

  lemma {:induction false} DueMembers(q: Timers, now: int)
    ensures forall t :: t in Due(q, now) ==> Has(q, t)
  {
    if q != [] {
      assert q == [q[0]] + q[1..];
      ConsFacts(q[0], q[1..]);
      DueMembers(q[1..], now);
    }
  }

  lemma {:induction false} KeepAll(d: seq<Id>, gone: set<Id>)
    requires forall t :: t in d ==> t !in gone
    ensures Keep(d, gone) == d
  {
    if d != [] {
      KeepAll(d[1..], gone);
    }
  }

  lemma {:induction false} KeepKeep(d: seq<Id>, a: set<Id>, b: set<Id>)
    ensures Keep(Keep(d, a), b) == Keep(d, a + b)
  {
    if d != [] {
      KeepKeep(d[1..], a, b);
      if d[0] in a {
        assert Keep(d, a) == Keep(d[1..], a) && Keep(d, a + b) == Keep(d[1..], a + b);
      } else {
        assert Keep(d, a)[0] == d[0] && Keep(d, a)[1..] == Keep(d[1..], a);
      }
    }
  }

  /** Cancelling takes exactly that timer out of the due ones. */
  lemma {:induction false} DueRemove(q: Timers, t: Id, now: int)
    requires Queue(q)
    ensures Due(Remove(q, t), now) == Keep(Due(q, now), {t})
  {
    hide Sorted, Unique, Has;
    if q != [] {
      assert q == [q[0]] + q[1..];
      ConsFacts(q[0], q[1..]);
      if q[0].due <= now {
        assert Due(q, now)[0] == q[0].who && Due(q, now)[1..] == Due(q[1..], now);
      } else {
        assert Due(q, now) == Due(q[1..], now);
      }
      if q[0].who == t {
        DueMembers(q[1..], now);
        KeepAll(Due(q[1..], now), {t});
        assert Keep(Due(q, now), {t}) == Due(q[1..], now);
      } else {
        DueRemove(q[1..], t, now);
        assert Remove(q, t)[0] == q[0] && Remove(q, t)[1..] == Remove(q[1..], t);
      }
    }
  }

  /** A timer armed for later is not due. */
  lemma {:induction false} DueInsert(q: Timers, e: Entry<Id>, now: int)
    requires e.due > now
    ensures Due(Insert(q, e), now) == Due(q, now)
  {
    if q == [] || q[0].due > e.due {
      assert ([e] + q)[1..] == q;
    } else {
      assert ([q[0]] + Insert(q[1..], e))[1..] == Insert(q[1..], e);
      DueInsert(q[1..], e, now);
    }
  }

  lemma ActOk(q: Timers, a: Action, now: int)
    requires Queue(q) && (a.Arm? ==> a.due > now) && Act(q, a).Some?
    ensures Queue(Act(q, a).value)
    ensures Due(Act(q, a).value, now) == Keep(Due(q, now), if a.Cancel? then {a.t} else {})
  {
    hide Sorted, Unique, Has, Has;
    match a
    case Cancel(t) =>
      RemoveFacts(q, t);
      DueRemove(q, t, now);
    case Arm(t, due) =>
      InsertFacts(q, Entry(due, t));
      DueInsert(q, Entry(due, t), now);
      KeepAll(Due(q, now), {});
  }

  /** A whole callback keeps the queue in order and takes exactly the cancelled timers out of the due ones. */
  lemma {:induction false} CallbackOk(q: Timers, acts: seq<Action>, now: int)
    requires Queue(q) && LaterOnly(acts, now) && Callback(q, acts).Some?
    ensures Queue(Callback(q, acts).value)
    ensures Due(Callback(q, acts).value, now) == Keep(Due(q, now), Cancelled(acts))
    decreases |acts|
  {
    hide Queue;
    if acts == [] {
      KeepAll(Due(q, now), {});
      assert Cancelled(acts) == {};
    } else {
      ActOk(q, acts[0], now);
      assert LaterOnly(acts[1..], now) by { assert forall i :: 0 <= i < |acts| - 1 ==> acts[1..][i] == acts[i + 1]; }
      CallbackOk(Act(q, acts[0]).value, acts[1..], now);
      var c: set<Id> := if acts[0].Cancel? then {acts[0].t} else {};
      KeepKeep(Due(q, now), c, Cancelled(acts[1..]));
      CancelledFirst(acts);
    }
  }

  lemma CancelledFirst(acts: seq<Action>)
    requires acts != []
    ensures Cancelled(acts) == (if acts[0].Cancel? then {acts[0].t} else {}) + Cancelled(acts[1..])
  {
    forall t | t in Cancelled(acts)
      ensures t in (if acts[0].Cancel? then {acts[0].t} else {}) + Cancelled(acts[1..])
    {
      var i :| 0 <= i < |acts| && acts[i].Cancel? && acts[i].t == t;
      if i > 0 {
        assert acts[1..][i - 1] == acts[i];
      }
    }
    forall t | t in Cancelled(acts[1..])
      ensures t in Cancelled(acts)
    {
      var i :| 0 <= i < |acts[1..]| && acts[1..][i].Cancel? && acts[1..][i].t == t;
      assert acts[i + 1] == acts[1..][i];
    }
  }

  lemma {:induction false} KeepShorter(d: seq<Id>, gone: set<Id>)
    ensures |Keep(d, gone)| <= |d|
  {
    if d != [] {
      KeepShorter(d[1..], gone);
    }
  }

  // ---------- the firing loop ----------

  datatype Outcome = Panic(fired: seq<Id>) | Done(fired: seq<Id>, queue: Timers)

  /** Put one more firing in front. */
  function After(t: Id, o: Outcome): Outcome {
    match o
    case Panic(fired) => Panic([t] + fired)
    case Done(fired, queue) => Done([t] + fired, queue)
  }

  /** One turn shortens the list of due timers: the measure of the loop. */
  lemma TurnShortens(q: Timers, now: int, script: Script)
    requires Queue(q) && Positive(script, now) && q != [] && q[0].due <= now
    ensures Queue(q[1..])
    ensures var r := Callback(q[1..], script(q[0].who));
            r.Some? ==> Queue(r.value) && |Due(r.value, now)| < |Due(q, now)|
                        && Due(r.value, now) == Keep(Due(q, now)[1..], Cancelled(script(q[0].who)))
  {
    TimerQueue.PopFacts(q);
    hide Sorted, Unique;
    var r := Callback(q[1..], script(q[0].who));
    if r.Some? {
      CallbackOk(q[1..], script(q[0].who), now);
      KeepShorter(Due(q[1..], now), Cancelled(script(q[0].who)));
    }
  }

  ghost function Tick(q: Timers, now: int, script: Script): Outcome
    requires Queue(q) && Positive(script, now)
    decreases |Due(q, now)|
  {
    if q == [] || now < q[0].due then Done([], q)
    else
      TurnShortens(q, now, script);
      match Callback(q[1..], script(q[0].who))
      case None => Panic([q[0].who])
      case Some(q') => After(q[0].who, Tick(q', now, script))
  }

  /** A tick fires exactly the due timers that no earlier callback of the tick cancelled, in queue
      order, unless it panics on the way, and leaves only timers that are later, in order. */
  lemma {:induction false} TickFires(q: Timers, now: int, script: Script, d: seq<Id>, gone: set<Id>)
    requires Queue(q) && Positive(script, now) && Due(q, now) == Keep(d, gone)
    ensures var o := Tick(q, now, script);
            && o.fired <= Fires(d, script, gone)
            && (o.Done? ==> o.fired == Fires(d, script, gone) && Queue(o.queue) && Due(o.queue, now) == [])
    decreases |Due(q, now)|, |d|
  {
    hide Queue, Positive;
    if q == [] || now < q[0].due {
      NoneDue(q, now);
      KeepNothing(d, script, gone);
    } else if d[0] in gone {
      TickFires(q, now, script, d[1..], gone);
    } else {
      assert Due(q, now)[0] == q[0].who && Due(q, now)[1..] == Keep(d[1..], gone);
      TurnShortens(q, now, script);
      var c := Cancelled(script(q[0].who));
      var r := Callback(q[1..], script(q[0].who));
      if r.Some? {
        KeepKeep(d[1..], gone, c);
        TickFires(r.value, now, script, d[1..], gone + c);
      }
    }
  }

  lemma {:induction false} NoneDue(q: Timers, now: int)
    requires Queue(q) && (q == [] || now < q[0].due)
    ensures Due(q, now) == []
  {
    if q != [] {
      TimerQueue.PopFacts(q);
      assert |q| > 1 ==> q[0].due <= q[1].due;
      NoneDue(q[1..], now);
    }
  }

  lemma {:induction false} KeepNothing(d: seq<Id>, script: Script, gone: set<Id>)
    requires Keep(d, gone) == []
    ensures Fires(d, script, gone) == []
  {
    if d != [] {
      KeepNothing(d[1..], script, gone);
    }
  }

  /** The whole tick. */
  lemma TickFiresDue(q: Timers, now: int, script: Script)
    requires Queue(q) && Positive(script, now)
    ensures var o := Tick(q, now, script);
            && o.fired <= Fires(Due(q, now), script, {})
            && (o.Done? ==> o.fired == Fires(Due(q, now), script, {}))
            && (o.Done? ==> Queue(o.queue) && forall e :: e in o.queue ==> now < e.due)
  {
    hide Queue, Positive;
    KeepAll(Due(q, now), {});
    TickFires(q, now, script, Due(q, now), {});
    var o := Tick(q, now, script);
    if o.Done? {
      OnlyLater(o.queue, now);
    }
  }

  lemma {:induction false} OnlyLater(q: Timers, now: int)
    requires Due(q, now) == []
    ensures forall e :: e in q ==> now < e.due
  {
    if q != [] {
      assert q == [q[0]] + q[1..];
      OnlyLater(q[1..], now);
    }
  }

  /** A timer cancelled by the callback of another never fires after it in the same tick. */
  lemma {:induction false} CancelledNeverFires(d: seq<Id>, script: Script, gone: set<Id>, i: nat, j: nat)
    requires i < j < |Fires(d, script, gone)|
    ensures Fires(d, script, gone)[j] !in Cancelled(script(Fires(d, script, gone)[i])) + gone
    decreases |d|
  {
    var f := Fires(d, script, gone);
    if d[0] in gone {
      CancelledNeverFires(d[1..], script, gone, i, j);
    } else {
      var gone' := gone + Cancelled(script(d[0]));
      assert f[1..] == Fires(d[1..], script, gone');
      if i == 0 {
        FiresNotGone(d[1..], script, gone');
        assert f[j] == f[1..][j - 1] && f[1..][j - 1] in f[1..];
      } else {
        CancelledNeverFires(d[1..], script, gone', i - 1, j - 1);
      }
    }
  }

  lemma {:induction false} FiresNotGone(d: seq<Id>, script: Script, gone: set<Id>)
    ensures forall t :: t in Fires(d, script, gone) ==> t in d && t !in gone
  {
    if d != [] {
      FiresNotGone(d[1..], script, gone);
      FiresNotGone(d[1..], script, gone + Cancelled(script(d[0])));
    }
  }

  // ---------- the code ----------

  class TimerList {
    var timerQueue: Timers

    /** False for the panic on a timer that is already queued. */
    method TimerSetOneshot(t: Id, due: int) returns (ok: bool)
      modifies this
      ensures Act(old(timerQueue), Arm(t, due)) == if ok then Some(timerQueue) else None
      ensures !ok ==> timerQueue == old(timerQueue)
    {
      if Has(timerQueue, t) {
        return false;
      }
      timerQueue := InsertTimerInQueue(timerQueue, Entry(due, t));
      ok := true;
    }

    method TimerCancel(t: Id)
      modifies this
      ensures Act(old(timerQueue), Cancel(t)) == Some(timerQueue)
    {
      if Has(timerQueue, t) {
        timerQueue := DeleteTimer(timerQueue, t);
      } else {
        NotThere(timerQueue, t);
      }
    }

    /** A callback at work. */
    method RunCallback(acts: seq<Action>) returns (ok: bool)
      modifies this
      ensures Callback(old(timerQueue), acts) == if ok then Some(timerQueue) else None
    {
      hide Act;
      ok := true;
      var i := 0;
      assert acts[0..] == acts;
      while i < |acts|
        invariant i <= |acts| && Callback(timerQueue, acts[i..]) == Callback(old(timerQueue), acts)
        decreases |acts| - i
      {
        assert acts[i..][1..] == acts[i + 1..];
        match acts[i] {
          case Cancel(t) => TimerCancel(t);
          case Arm(t, due) =>
            ok := TimerSetOneshot(t, due);
            if !ok {
              return;
            }
        }
        i := i + 1;
      }
    }

    /** The firing loop of timer_tick. */
    method FireDueTimers(now: int, script: Script) returns (fired: seq<Id>, ok: bool)
      requires Queue(timerQueue) && Positive(script, now)
      modifies this
      ensures Tick(old(timerQueue), now, script) == if ok then Done(fired, timerQueue) else Panic(fired)
    {
      hide Queue, Positive, Callback;
      fired, ok := [], true;
      ghost var q0 := timerQueue;
      while timerQueue != [] && !(now < timerQueue[0].due)
        invariant Queue(timerQueue) && Tick(q0, now, script) == Prepend(fired, Tick(timerQueue, now, script))
        decreases |Due(timerQueue, now)|
      {
        TurnShortens(timerQueue, now, script);
        var timer := timerQueue[0];
        ghost var rest := Tick(timerQueue, now, script);
        timerQueue := timerQueue[1..];
        ok := RunCallback(script(timer.who));
        PrependAfter(fired, timer.who, if ok then Tick(timerQueue, now, script) else Panic([]));
        fired := fired + [timer.who];
        if !ok {
          return;
        }
      }
    }
  }

  function Prepend(fired: seq<Id>, o: Outcome): Outcome {
    match o
    case Panic(f) => Panic(fired + f)
    case Done(f, q) => Done(fired + f, q)
  }

  lemma PrependAfter(fired: seq<Id>, t: Id, o: Outcome)
    ensures Prepend(fired, After(t, o)) == Prepend(fired + [t], o)
  {
    assert fired + ([t] + o.fired) == fired + [t] + o.fired;
  }

  lemma {:induction false} NotThere(q: Timers, t: Id)
    requires !Has(q, t)
    ensures Remove(q, t) == q
  {
    if q != [] {
      assert q[0].who != t;
      assert forall i :: 0 <= i < |q| - 1 ==> q[1..][i] == q[i + 1];
      NotThere(q[1..], t);
    }
  }
}
