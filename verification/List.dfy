/**
 The circular doubly linked list of include/list.h, with the list head as sentinel. The
 run queues, wait queues, timers and free chunks of the other modules are the sequences that
 such rings hold.
 */
module List {
  import opened Basics

  class ListNode {
    var prev: ListNode?
    var next: ListNode?

    constructor ()
      ensures prev == null && next == null
    {
      prev := null;
      next := null;
    }
  }

  /** Once around: the head, the items, the head again. */
  ghost function Circle(head: ListNode, items: seq<ListNode>): seq<ListNode> {
    [head] + items + [head]
  }

  /** The ring that starts at head holds exactly these items, in this order. */
  ghost predicate Ring(head: ListNode, items: seq<ListNode>)
    reads head, items
  {
    var c := Circle(head, items);
    && head !in items && Distinct(items)
    && forall i :: 0 <= i <= |items| ==> c[i].next == c[i + 1] && c[i + 1].prev == c[i]
  }

  /** Unlinking position k of distinct items is removing that item. */
  lemma {:induction false} WithoutAt(items: seq<ListNode>, k: nat)
    requires Distinct(items) && k < |items|
    ensures Without(items, items[k]) == items[..k] + items[k + 1..]
  {
    if k > 0 {
      assert items[1..][k - 1] == items[k];
      WithoutAt(items[1..], k - 1);
    }
  }

  method ListInitialize(list: ListNode)
    modifies list
    ensures Ring(list, [])
  {
    list.prev, list.next := list, list;
  }

  method ListClearNode(item: ListNode)
    modifies item
    ensures !ListInList(item)
  {
    item.prev, item.next := null, null;
  }

  predicate ListInList(item: ListNode)
    reads item
  {
    !(item.prev == null && item.next == null)
  }

  /** Every member of a ring is in a list. */
  lemma MembersAreInList(head: ListNode, items: seq<ListNode>, k: nat)
    requires Ring(head, items) && k < |items|
    ensures ListInList(items[k])
  {
    var c := Circle(head, items);
    assert c[k + 1].next == c[k + 2];
  }

  /** list_add_head on the head (k == 0), list_add_after on the item at k - 1. */
  method ListAddHead(list: ListNode, item: ListNode, ghost head: ListNode, ghost items: seq<ListNode>, ghost k: nat)
    requires Ring(head, items) && k <= |items| && list == Circle(head, items)[k]
    requires item != head && item !in items
    modifies item, list, list.next
    ensures Ring(head, items[..k] + [item] + items[k..])
  {
    ghost var c := Circle(head, items);
    ghost var items' := items[..k] + [item] + items[k..];
    ghost var c' := Circle(head, items');
    assert c[k].next == c[k + 1];
    Apart(head, items, k);
    item.next := list.next;
    item.prev := list;
    list.next.prev := item;
    list.next := item;
    InsertedDistinct(items, item, k);
    forall i | 0 <= i <= |items'|
      ensures c'[i].next == c'[i + 1] && c'[i + 1].prev == c'[i]
    {
      if i < k {
        assert c'[i] == c[i] && c'[i + 1] == c[i + 1];
      } else if i > k + 1 {
        assert c'[i] == c[i - 1] && c'[i + 1] == c[i];
      }
    }
  }

  /** list_add_tail on the head (k == |items|), list_add_before on the item at k. */
  method ListAddTail(list: ListNode, item: ListNode, ghost head: ListNode, ghost items: seq<ListNode>, ghost k: nat)
    requires Ring(head, items) && k <= |items| && list == Circle(head, items)[k + 1]
    requires item != head && item !in items
    modifies item, list, list.prev
    ensures Ring(head, items[..k] + [item] + items[k..])
  {
    ghost var c := Circle(head, items);
    ghost var items' := items[..k] + [item] + items[k..];
    ghost var c' := Circle(head, items');
    assert c[k].next == c[k + 1] && c[k + 1].prev == c[k];
    Apart(head, items, k);
    item.prev := list.prev;
    item.next := list;
    list.prev.next := item;
    list.prev := item;
    InsertedDistinct(items, item, k);
    forall i | 0 <= i <= |items'|
      ensures c'[i].next == c'[i + 1] && c'[i + 1].prev == c'[i]
    {
      if i < k {
        assert c'[i] == c[i] && c'[i + 1] == c[i + 1];
      } else if i > k + 1 {
        assert c'[i] == c[i - 1] && c'[i + 1] == c[i];
      }
    }
  }

  /** Along the circle, the source of a link differs from the sources of all others, and so does its target. */
  lemma Apart(head: ListNode, items: seq<ListNode>, k: nat)
    requires Ring(head, items) && k <= |items|
    ensures forall i :: 0 <= i <= |items| && i != k ==> Circle(head, items)[i] != Circle(head, items)[k]
    ensures forall i :: 0 < i <= |items| + 1 && i != k + 1 ==> Circle(head, items)[i] != Circle(head, items)[k + 1]
  {
    var c := Circle(head, items);
    assert forall i :: 0 < i <= |items| ==> c[i] == items[i - 1];
  }

  lemma InsertedDistinct(items: seq<ListNode>, item: ListNode, k: nat)
    requires Distinct(items) && item !in items && k <= |items|
    ensures Distinct(items[..k] + [item] + items[k..])
    ensures forall x :: x in items[..k] + [item] + items[k..] <==> x in items || x == item
  {
    var r := items[..k] + [item] + items[k..];
    assert items == items[..k] + items[k..];
    forall i, j | 0 <= i < j < |r|
      ensures r[i] != r[j]
    {
      assert i != k ==> r[i] == items[if i < k then i else i - 1];
      assert j != k ==> r[j] == items[if j < k then j else j - 1];
    }
  }

  /** Unlink one item, wherever it is. */
  method ListDelete(item: ListNode, ghost head: ListNode, ghost items: seq<ListNode>)
    requires Ring(head, items) && item in items
    modifies item, item.next, item.prev
    ensures Ring(head, Without(items, item)) && !ListInList(item)
  {
    ghost var k :| 0 <= k < |items| && items[k] == item;
    ghost var c := Circle(head, items);
    ghost var items' := items[..k] + items[k + 1..];
    ghost var c' := Circle(head, items');
    WithoutAt(items, k);
    WithoutFacts(items, item);
    assert c[k + 1] == item && c[k].next == c[k + 1] && c[k + 1].next == c[k + 2];
    Apart(head, items, k);
    Apart(head, items, k + 1);
    item.next.prev := item.prev;
    item.prev.next := item.next;
    item.prev, item.next := null, null;
    forall i | 0 <= i <= |items'|
      ensures c'[i].next == c'[i + 1] && c'[i + 1].prev == c'[i]
    {
      if i < k {
        assert c'[i] == c[i] && c'[i + 1] == c[i + 1];
      } else if i > k {
        assert c'[i] == c[i + 1] && c'[i + 1] == c[i + 2];
      }
    }
  }

  /** The ends of the ring. */
  lemma Ends(head: ListNode, items: seq<ListNode>)
    requires Ring(head, items)
    ensures head.next == (if items == [] then head else items[0])
    ensures head.prev == (if items == [] then head else items[|items| - 1])
    ensures items != [] ==> items[0] != head && items[|items| - 1] != head
  {
    var c := Circle(head, items);
    assert c[0].next == c[1] && c[|items| + 1].prev == c[|items|];
  }

  /** The neighbours of an item; the head stands at both ends. */
  lemma Neighbours(head: ListNode, items: seq<ListNode>, k: nat)
    requires Ring(head, items) && k < |items|
    ensures items[k].next == (if k + 1 < |items| then items[k + 1] else head)
    ensures items[k].prev == (if k > 0 then items[k - 1] else head)
    ensures k > 0 ==> items[k - 1] != head
    ensures k + 1 < |items| ==> items[k + 1] != head
  {
    var c := Circle(head, items);
    assert c[k + 1] == items[k] && c[k + 1].next == c[k + 2] && c[k + 1].prev == c[k];
  }

  method ListRemoveHead(list: ListNode, ghost items: seq<ListNode>) returns (r: ListNode?)
    requires Ring(list, items)
    modifies list, items
    ensures if items == [] then r == null && Ring(list, []) else r == items[0] && Ring(list, items[1..])
    ensures r != null ==> !ListInList(r)
  {
    Ends(list, items);
    r := null;
    if list.next != list {
      var item := list.next;
      Neighbours(list, items, 0);
      ListDelete(item, list, items);
      r := item;
    }
  }

  method ListRemoveTail(list: ListNode, ghost items: seq<ListNode>) returns (r: ListNode?)
    requires Ring(list, items)
    modifies list, items
    ensures if items == [] then r == null && Ring(list, [])
            else r == items[|items| - 1] && Ring(list, items[..|items| - 1])
    ensures r != null ==> !ListInList(r)
  {
    Ends(list, items);
    r := null;
    if list.prev != list {
      var item := list.prev;
      Neighbours(list, items, |items| - 1);
      WithoutAt(items, |items| - 1);
      assert items[..|items| - 1] + items[|items|..] == items[..|items| - 1];
      ListDelete(item, list, items);
      r := item;
    }
  }

  method ListPeekHead(list: ListNode, ghost items: seq<ListNode>) returns (r: ListNode?)
    requires Ring(list, items)
    ensures r == if items == [] then null else items[0]
  {
    Ends(list, items);
    r := if list.next != list then list.next else null;
  }

  method ListPeekTail(list: ListNode, ghost items: seq<ListNode>) returns (r: ListNode?)
    requires Ring(list, items)
    ensures r == if items == [] then null else items[|items| - 1]
  {
    Ends(list, items);
    r := if list.prev != list then list.prev else null;
  }

  method ListPrev(list: ListNode, item: ListNode, ghost items: seq<ListNode>, ghost k: nat) returns (r: ListNode?)
    requires Ring(list, items) && k < |items| && items[k] == item
    ensures r == if k == 0 then null else items[k - 1]
  {
    Neighbours(list, items, k);
    r := if item.prev != list then item.prev else null;
  }

  method ListNext(list: ListNode, item: ListNode, ghost items: seq<ListNode>, ghost k: nat) returns (r: ListNode?)
    requires Ring(list, items) && k < |items| && items[k] == item
    ensures r == if k + 1 == |items| then null else items[k + 1]
  {
    Neighbours(list, items, k);
    r := if item.next != list then item.next else null;
  }

  /** The item before, and the last item before the first. */
  method ListPrevWrap(list: ListNode, item: ListNode, ghost items: seq<ListNode>, ghost k: nat) returns (r: ListNode?)
    requires Ring(list, items) && k < |items| && items[k] == item
    ensures r == items[if k == 0 then |items| - 1 else k - 1]
  {
    Neighbours(list, items, k);
    Ends(list, items);
    if item.prev != list {
      r := item.prev;
    } else if item.prev.prev != list {
      r := item.prev.prev;
    } else {
      assert false;
      r := null;
    }
  }

  /** The item behind, and the first item behind the last. */
  method ListNextWrap(list: ListNode, item: ListNode, ghost items: seq<ListNode>, ghost k: nat) returns (r: ListNode?)
    requires Ring(list, items) && k < |items| && items[k] == item
    ensures r == items[if k + 1 == |items| then 0 else k + 1]
  {
    Neighbours(list, items, k);
    Ends(list, items);
    if item.next != list {
      r := item.next;
    } else if item.next.next != list {
      r := item.next.next;
    } else {
      assert false;
      r := null;
    }
  }

  method ListIsEmpty(list: ListNode, ghost items: seq<ListNode>) returns (empty: bool)
    requires Ring(list, items)
    ensures empty <==> items == []
  {
    Ends(list, items);
    empty := list.next == list;
  }

  /** list_for_every: the nodes in the order in which the loop visits them. */
  method ListForEvery(list: ListNode, ghost items: seq<ListNode>) returns (visited: seq<ListNode>)
    requires Ring(list, items)
    ensures visited == items
  {
    visited := [];
    var node := list.next;
    ghost var c := Circle(list, items);
    assert c[0].next == c[1];
    while node != list
      invariant |visited| <= |items| && visited == items[..|visited|] && node == c[|visited| + 1]
      decreases |items| - |visited|
    {
      assert c[|visited| + 1].next == c[|visited| + 2];
      visited := visited + [node];
      node := node.next;
    }
  }
}
