/**
 The sorted timer queue of kernel/timer.c on values: insertion, cancellation and the split
 into due and later timers. `who` is the payload of a timer.
 */
module TimerQueue {
  import opened Basics

  datatype Entry<T> = Entry(due: int, who: T)

  /** Sorted by due time and, among equals, in the order in which they were armed. */
  ghost predicate Sorted<T>(q: seq<Entry<T>>) {
    forall i, j :: 0 <= i < j < |q| ==> q[i].due <= q[j].due
  }

  /** Is the timer queued? */
  predicate Has<T(==)>(q: seq<Entry<T>>, x: T) {
    exists i :: 0 <= i < |q| && q[i].who == x
  }

  ghost predicate Unique<T>(q: seq<Entry<T>>) {
    forall i, j :: 0 <= i < j < |q| ==> q[i].who != q[j].who
  }

  /** insert_timer_in_queue: before the first timer that is strictly later. */
  function Insert<T>(q: seq<Entry<T>>, e: Entry<T>): seq<Entry<T>> {
    if q == [] then [e]
    else if q[0].due > e.due then [e] + q
    else [q[0]] + Insert(q[1..], e)
  }

  /** timer_cancel: unlink the timer, or nothing when it is not queued. */
  function Remove<T(==)>(q: seq<Entry<T>>, x: T): seq<Entry<T>> {
    if q == [] then []
    else if q[0].who == x then q[1..]
    else [q[0]] + Remove(q[1..], x)
  }

  /** The new timer lands behind every timer due no later and ahead of every later one, and nothing else moves. */
  lemma {:induction false} InsertPosition<T(!new)>(q: seq<Entry<T>>, e: Entry<T>) returns (k: nat)
    requires Sorted(q)
    ensures k <= |q| && Insert(q, e) == q[..k] + [e] + q[k..]
    ensures forall i :: 0 <= i < k ==> q[i].due <= e.due
    ensures forall i :: k <= i < |q| ==> e.due < q[i].due
    ensures Sorted(Insert(q, e))
  {
    k := PlaceOf(q, e);
    var r := Insert(q, e);
    assert forall i :: 0 <= i < k ==> r[i] == q[i];
    assert forall i :: k < i < |r| ==> r[i] == q[i - 1];
  }

  lemma {:induction false} PlaceOf<T(!new)>(q: seq<Entry<T>>, e: Entry<T>) returns (k: nat)
    requires Sorted(q)
    ensures k <= |q| && Insert(q, e) == q[..k] + [e] + q[k..]
    ensures forall i :: 0 <= i < k ==> q[i].due <= e.due
    ensures forall i :: k <= i < |q| ==> e.due < q[i].due
  {
    if q == [] || q[0].due > e.due {
      k := 0;
    } else {
      var k' := PlaceOf(q[1..], e);
      k := k' + 1;
      assert q[..k] == [q[0]] + q[1..][..k'];
      assert q[k..] == q[1..][k'..];
    }
  }

  /** How the three notions read on a queue with one more timer at its head. */
  lemma ConsFacts<T(!new)>(h: Entry<T>, q: seq<Entry<T>>)
    ensures forall x :: Has([h] + q, x) <==> h.who == x || Has(q, x)
    ensures Sorted([h] + q) <==> Sorted(q) && forall e :: e in q ==> h.due <= e.due
    ensures Unique([h] + q) <==> Unique(q) && !Has(q, h.who)
  {
    var r := [h] + q;
    assert forall i :: 0 <= i < |q| ==> r[i + 1] == q[i];
    forall x
      ensures Has(r, x) <==> h.who == x || Has(q, x)
    {
      if Has(q, x) {
        var i :| 0 <= i < |q| && q[i].who == x;
        assert r[i + 1].who == x;
      }
      if h.who == x {
        assert r[0].who == x;
      }
    }
    SortedCons(h, q);
    UniqueCons(h, q);
  }

  lemma SortedCons<T(!new)>(h: Entry<T>, q: seq<Entry<T>>)
    ensures Sorted([h] + q) <==> Sorted(q) && forall e :: e in q ==> h.due <= e.due
  {
    var r := [h] + q;
    if Sorted(r) {
      forall i, j | 0 <= i < j < |q|
        ensures q[i].due <= q[j].due
      {
        assert r[i + 1].due <= r[j + 1].due;
      }
      forall e | e in q
        ensures h.due <= e.due
      {
        var i :| 0 <= i < |q| && q[i] == e;
        assert r[0].due <= r[i + 1].due;
      }
    }
  }

  lemma UniqueCons<T(!new)>(h: Entry<T>, q: seq<Entry<T>>)
    ensures Unique([h] + q) <==> Unique(q) && !Has(q, h.who)
  {
    var r := [h] + q;
    if Unique(r) {
      forall i, j | 0 <= i < j < |q|
        ensures q[i].who != q[j].who
      {
        assert r[i + 1].who != r[j + 1].who;
      }
      forall i | 0 <= i < |q|
        ensures q[i].who != h.who
      {
        assert r[0].who != r[i + 1].who;
      }
    }
  }

  lemma {:induction false} InsertMembers<T(!new)>(q: seq<Entry<T>>, x: Entry<T>)
    ensures forall e :: e in Insert(q, x) <==> e in q || e == x
  {
    if q == [] || q[0].due > x.due {
    } else {
      assert q == [q[0]] + q[1..];
      InsertMembers(q[1..], x);
    }
  }

  lemma {:induction false} InsertFacts<T(!new)>(q: seq<Entry<T>>, e: Entry<T>)
    requires Sorted(q) && Unique(q) && !Has(q, e.who)
    ensures Sorted(Insert(q, e)) && Unique(Insert(q, e))
    ensures forall x :: Has(Insert(q, e), x) <==> Has(q, x) || x == e.who
  {
    hide Sorted, Unique, Has;
    if q == [] {
      ConsFacts(e, []);
      EmptyFacts<T>();
      assert [e] + [] == [e];
    } else {
      assert q == [q[0]] + q[1..];
      ConsFacts(q[0], q[1..]);
      ConsFacts(e, q);
      assert forall x :: x in q[1..] ==> q[0].due <= x.due;
      if q[0].due <= e.due {
        InsertFacts(q[1..], e);
        InsertMembers(q[1..], e);
        ConsFacts(q[0], Insert(q[1..], e));
      } else {
        assert forall x :: x in q ==> e.due <= x.due;
      }
    }
  }

  lemma EmptyFacts<T(!new)>()
    ensures Sorted<T>([]) && Unique<T>([]) && forall x: T :: !Has<T>([], x)
  {
  }

  /** Cancelling removes exactly that timer; the others keep their order. */
  lemma {:induction false} RemoveFacts<T(!new)>(q: seq<Entry<T>>, x: T)
    requires Sorted(q) && Unique(q)
    ensures Sorted(Remove(q, x)) && Unique(Remove(q, x))
    ensures forall y :: Has(Remove(q, x), y) <==> Has(q, y) && y != x
    ensures forall e :: e in Remove(q, x) ==> e in q
  {
    hide Sorted, Unique, Has;
    EmptyFacts<T>();
    if q != [] {
      assert q == [q[0]] + q[1..];
      ConsFacts(q[0], q[1..]);
      if q[0].who != x {
        RemoveFacts(q[1..], x);
        ConsFacts(q[0], Remove(q[1..], x));
      }
    }
  }

  lemma {:induction false} RemoveMembers<T(!new)>(q: seq<Entry<T>>, who: T, x: Entry<T>)
    requires Unique(q)
    ensures x in Remove(q, who) <==> x in q && x.who != who
  {
    if q != [] {
      var h, rest := q[0], q[1..];
      assert q == [h] + rest;
      ConsFacts(h, rest);
      HasMember(rest, x);
      if h.who != who {
        RemoveMembers(rest, who, x);
      }
    }
  }

  lemma HasMember<T(!new)>(q: seq<Entry<T>>, x: Entry<T>)
    ensures x in q ==> Has(q, x.who)
  {
    if x in q {
      var i :| 0 <= i < |q| && q[i] == x;
      assert q[i].who == x.who;
    }
  }

  /** Popping the head leaves the others. */
  lemma PopFacts<T(!new)>(q: seq<Entry<T>>)
    requires Sorted(q) && Unique(q) && q != []
    ensures Sorted(q[1..]) && Unique(q[1..])
    ensures forall x :: Has(q[1..], x) <==> Has(q, x) && x != q[0].who
  {
    hide Sorted, Unique, Has;
    assert q == [q[0]] + q[1..];
    ConsFacts(q[0], q[1..]);
  }

  // ---------- the loops ----------

  /** insert_timer_in_queue: walk to the first later timer. */
  method InsertTimerInQueue<T>(q: seq<Entry<T>>, timer: Entry<T>) returns (r: seq<Entry<T>>)
    ensures r == Insert(q, timer)
  {
    var i := 0;
    while i < |q|
      invariant i <= |q|
      invariant Insert(q, timer) == q[..i] + Insert(q[i..], timer)
    {
      if q[i].due > timer.due {
        break;
      }
      assert q[i..] == [q[i]] + q[i + 1..];
      assert q[..i + 1] == q[..i] + [q[i]];
      i := i + 1;
    }
    r := q[..i] + [timer] + q[i..];
  }

  /** Unlink a timer if it is queued. */
  method DeleteTimer<T(==)>(q: seq<Entry<T>>, who: T) returns (r: seq<Entry<T>>)
    ensures r == Remove(q, who)
  {
    var i := 0;
    while i < |q|
      invariant i <= |q|
      invariant Remove(q, who) == q[..i] + Remove(q[i..], who)
    {
      if q[i].who == who {
        assert q[i..][1..] == q[i + 1..];
        return q[..i] + q[i + 1..];
      }
      assert q[i..] == [q[i]] + q[i + 1..];
      assert q[..i + 1] == q[..i] + [q[i]];
      i := i + 1;
    }
    assert q[..i] + [] == q;
    r := q;
  }
}
