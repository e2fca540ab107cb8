// The circular doubly linked lists of libusb-andro/libusb/libusbi.h, on the heap. A list is the
// ring of its nodes, the list head first; each operation rewrites at most three nodes and is
// proved to be the matching operation on that sequence. Rings that share no node with the
// operands keep their shape because every modifies clause names the touched nodes only.

module IntrusiveList {
  // container_of is not modelled: a node carries its entry.
  class ListHead<T> {
    var prev: ListHead?<T>
    var next: ListHead?<T>
    var entry: T

    constructor (entry: T)
      ensures this.entry == entry && prev == null && next == null
    {
      this.entry, prev, next := entry, null, null;
    }
  }

  ghost predicate Distinct<T>(s: seq<ListHead<T>>) {
    forall i, j :: 0 <= i < j < |s| ==> s[i] != s[j]
  }

  ghost function Node<T>(s: seq<ListHead<T>>, k: nat): ListHead<T>
    requires k < |s|
  {
    s[k]
  }

  function Succ(i: nat, n: nat): (j: nat)
    requires i < n
    ensures j < n
  {
    if i + 1 < n then i + 1 else 0
  }

  // next leads round the nodes of s in order, and prev is its inverse.
  ghost predicate Ring<T>(s: seq<ListHead<T>>)
    reads (set n: ListHead<T> | n in s)`next, (set n: ListHead<T> | n in s)`prev
  {
    && |s| > 0
    && Distinct(s)
    && forall i :: 0 <= i < |s| ==> s[i].next == s[Succ(i, |s|)] && s[Succ(i, |s|)].prev == s[i]
  }

  ghost function InsertAfter<T>(s: seq<T>, k: nat, x: T): seq<T>
    requires k < |s|
  {
    s[..k + 1] + [x] + s[k + 1..]
  }

  // Before the head is behind the last entry.
  ghost function InsertBefore<T>(s: seq<T>, k: nat, x: T): seq<T>
    requires k < |s|
  {
    if k == 0 then s + [x] else s[..k] + [x] + s[k..]
  }

  ghost function RemoveAt<T>(s: seq<T>, k: nat): seq<T>
    requires k < |s|
  {
    s[..k] + s[k + 1..]
  }

  // Splicing a node between two neighbours of a ring keeps a ring.
  lemma Splice<T>(s: seq<ListHead<T>>, k: nat, x: ListHead<T>, r: seq<ListHead<T>>)
    requires k < |s| && x !in s && r == InsertAfter(s, k, x) && Distinct(s)
    requires forall i :: 0 <= i < |s| && i != k ==> s[i].next == s[Succ(i, |s|)] && s[Succ(i, |s|)].prev == s[i]
    requires s[k].next == x && x.prev == s[k]
    requires x.next == s[Succ(k, |s|)] && s[Succ(k, |s|)].prev == x
    ensures Ring(r)
  {
    forall i | 0 <= i < |r| ensures r[i].next == r[Succ(i, |r|)] && r[Succ(i, |r|)].prev == r[i] {
      if i < k {
        assert s[i].next == s[Succ(i, |s|)];
      } else if i > k + 1 {
        assert s[i - 1].next == s[Succ(i - 1, |s|)];
      }
    }
  }

  // list_init
  method ListInit<T>(entry: ListHead<T>)
    modifies entry`next, entry`prev
    ensures Ring([entry]) && entry.next == entry && entry.prev == entry
  {
    entry.next := entry;
    entry.prev := entry;
  }

  // list_empty
  method ListEmpty<T>(entry: ListHead<T>, ghost s: seq<ListHead<T>>) returns (b: bool)
    requires Ring(s) && s[0] == entry
    ensures b <==> |s| == 1
  {
    b := entry.next == entry;
    assert s[0].next == s[Succ(0, |s|)];
  }

  // list_add: directly behind head, which is node k of the ring s
  method ListAdd<T>(entry: ListHead<T>, head: ListHead<T>, ghost s: seq<ListHead<T>>, ghost k: nat)
    requires Ring(s) && k < |s| && head == s[k] && entry !in s
    modifies entry`prev, entry`next, head`next, Node(s, Succ(k, |s|))`prev
    ensures Ring(InsertAfter(s, k, entry)) && InsertAfter(s, k, entry) == s[..k + 1] + [entry] + s[k + 1..]
    ensures head.next == entry && entry.prev == head && entry.next == old(head.next)
    ensures entry.next != null && entry.next.prev == entry
  {
    assert s[k].next == s[Succ(k, |s|)];
    entry.next := head.next;
    entry.prev := head;
    head.next.prev := entry;
    head.next := entry;
    assert forall i :: 0 <= i < |s| && i != k ==> Succ(i, |s|) != Succ(k, |s|);
    Splice(s, k, entry, InsertAfter(s, k, entry));
  }

  // list_add_tail: directly before head, which is node k of the ring s
  method ListAddTail<T>(entry: ListHead<T>, head: ListHead<T>, ghost s: seq<ListHead<T>>, ghost k: nat)
    requires Ring(s) && k < |s| && head == s[k] && entry !in s
    modifies entry`prev, entry`next, head`prev, Node(s, if k == 0 then |s| - 1 else k - 1)`next
    ensures Ring(InsertBefore(s, k, entry))
    ensures InsertBefore(s, k, entry) == if k == 0 then s + [entry] else s[..k] + [entry] + s[k..]
    ensures head.prev == entry && entry.next == head && entry.prev == old(head.prev)
    ensures entry.prev != null && entry.prev.next == entry
  {
    ghost var j := if k == 0 then |s| - 1 else k - 1;
    assert Succ(j, |s|) == k && s[Succ(j, |s|)].prev == s[j];
    entry.next := head;
    entry.prev := head.prev;
    head.prev.next := entry;
    head.prev := entry;
    assert forall i :: 0 <= i < |s| && i != j ==> Succ(i, |s|) != k;
    assert InsertBefore(s, k, entry) == InsertAfter(s, j, entry);
    Splice(s, j, entry, InsertAfter(s, j, entry));
  }

  // list_del of node k, which is not the list head
  method ListDel<T>(entry: ListHead<T>, ghost s: seq<ListHead<T>>, ghost k: nat)
    requires Ring(s) && 0 < k < |s| && entry == s[k]
    modifies entry`prev, entry`next, Node(s, k - 1)`next, Node(s, Succ(k, |s|))`prev
    ensures Ring(RemoveAt(s, k)) && RemoveAt(s, k) == s[..k] + s[k + 1..]
    ensures entry.next == null && entry.prev == null
    ensures s[k - 1].next == s[Succ(k, |s|)] && s[Succ(k, |s|)].prev == s[k - 1]
  {
    assert s[k - 1].next == s[Succ(k - 1, |s|)] && s[Succ(k - 1, |s|)].prev == s[k - 1];
    assert s[k].next == s[Succ(k, |s|)];
    entry.next.prev := entry.prev;
    entry.prev.next := entry.next;
    entry.next := null;
    entry.prev := null;
    ghost var r := RemoveAt(s, k);
    forall i | 0 <= i < |r| ensures r[i].next == r[Succ(i, |r|)] && r[Succ(i, |r|)].prev == r[i] {
      ghost var i' := if i < k then i else i + 1;
      assert r[i] == s[i'];
      assert i' != k - 1 ==> Succ(i', |s|) != k && s[Succ(i', |s|)] == r[Succ(i, |r|)];
      assert i' == k - 1 ==> s[Succ(k, |s|)] == r[Succ(i, |r|)];
      assert i' != k - 1 ==> s[i'].next == s[Succ(i', |s|)] && s[Succ(i', |s|)].prev == s[i'];
    }
  }

  // list_cut: list takes over every entry of head, head is left empty
  method ListCut<T>(list: ListHead<T>, head: ListHead<T>, ghost s: seq<ListHead<T>>)
    requires Ring(s) && head == s[0] && Ring([list]) && list !in s
    modifies list`prev, list`next, head`prev, head`next, Node(s, |s| - 1)`next, Node(s, Succ(0, |s|))`prev
    ensures Ring([list] + s[1..]) && Ring([head])
  {
    if head.next == head {
      assert s[0].next == s[Succ(0, |s|)];
      assert [list] + s[1..] == [list] && [head] == s;
      return;
    }
    assert s[0].next == s[Succ(0, |s|)];
    assert Succ(|s| - 1, |s|) == 0 && s[Succ(|s| - 1, |s|)].prev == s[|s| - 1];
    assert |s| > 1;
    ghost var r := [list] + s[1..];
    list.next := head.next;
    list.next.prev := list;
    list.prev := head.prev;
    list.prev.next := list;
    head.next := head;
    head.prev := head;
    forall i | 0 <= i < |r| ensures r[i].next == r[Succ(i, |r|)] && r[Succ(i, |r|)].prev == r[i] {
      if 0 < i < |r| - 1 {
        assert Succ(i, |s|) == i + 1;
        assert s[i].next == s[Succ(i, |s|)] && s[Succ(i, |s|)].prev == s[i];
      }
    }
  }

  // As usbi_remove_pollfd does: node k of one ring goes to the end of another that shares no node
  // with it. Each of the two steps leaves the other ring alone.
  method MoveToTail<T>(entry: ListHead<T>, head: ListHead<T>, ghost s: seq<ListHead<T>>, ghost k: nat, ghost t: seq<ListHead<T>>)
    requires Ring(s) && 0 < k < |s| && entry == s[k]
    requires Ring(t) && head == t[0] && forall n :: n in s ==> n !in t
    modifies (set n | n in s)`next, (set n | n in s)`prev, (set n | n in t)`next, (set n | n in t)`prev
    ensures Ring(RemoveAt(s, k)) && Ring(t + [entry])
  {
    ListDel(entry, s, k);
    ghost var r := RemoveAt(s, k);
    assert forall n :: n in r ==> n in s && n != entry;
    assert entry !in t;
    assert InsertBefore(t, 0, entry) == t + [entry];
    ListAddTail(entry, head, t, 0);
  }
}
