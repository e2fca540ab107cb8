// ctx->flying_transfers as it is in memory: a ring of list nodes behind a list head, updated in
// place by the code of libusb-andro/libusb/io.c and core.c. Each method is proved against the
// sequence functions of FlyingSpec. Each runs under flying_transfers_lock from beginning to end, but for
// HandleDisconnect, which has it for one transfer at a time: what other threads do to the list in
// between is FlyingSpec.DrainUnderInterference.

module FlyingList {
  import opened Wrappers
  import opened IntrusiveList
  import opened FlyingSpec

  type Node = ListHead<Xfer>

  class FlyingTransfers {
    const head: Node
    ghost var nodes: seq<Node>
    ghost var contents: seq<Xfer>
    ghost var region: set<Node>   // every node that is or was linked here, and the head
    // ids completed with NO_DEVICE by usbi_handle_disconnect, oldest first
    var noDevice: seq<nat>

    ghost predicate Valid()
      reads this, region
    {
      && head in region
      && (forall n :: n in nodes ==> n in region)
      && |contents| == |nodes|
      && (forall i :: 0 <= i < |nodes| ==> nodes[i].entry == contents[i])
      && Ring([head] + nodes)
    }

    constructor (headEntry: Xfer)
      ensures Valid() && fresh(head) && contents == [] && noDevice == []
    {
      var h := new ListHead(headEntry);
      ListInit(h);
      head := h;
      nodes, contents, noDevice, region := [], [], [], {h};
    }

    // Position i of a walk: node i, or the list head once the walk is over.
    static ghost function At(h: Node, ns: seq<Node>, i: nat): Node {
      if i < |ns| then ns[i] else h
    }

    lemma Follows(i: nat)
      requires Valid() && i <= |nodes|
      ensures |nodes| == |contents|
      ensures (if i == 0 then head else nodes[i - 1]).next == At(head, nodes, i)
      ensures At(head, nodes, i) == head <==> i == |nodes|
      ensures i < |nodes| ==>
                && At(head, nodes, i) == nodes[i] && At(head, nodes, i) in region
                && At(head, nodes, i).entry == contents[i] && At(head, nodes, i) in nodes && At(head, nodes, i) != head
    {
      var s := [head] + nodes;
      assert s[i].next == s[Succ(i, |s|)];
      assert i < |nodes| ==> s[0] == head && s[i + 1] == nodes[i];
    }

    // calculate_timeout; None when the clock cannot be read
    static method CalculateTimeout(clock: Option<TimeSpec>, ms: nat) returns (t: Option<TimeVal>)
      requires clock.Some? ==> clock.value.nsec < 1_000_000_000
      ensures t == if ms == 0 then Some(TimeVal(0, 0))
                   else if clock == None then None else Some(AbsoluteTimeout(clock.value, ms))
    {
      if ms == 0 { return Some(TimeVal(0, 0)); }
      if clock == None { return None; }
      var sec, nsec := clock.value.sec + ms / 1000, clock.value.nsec + (ms % 1000) * 1_000_000;
      while nsec >= 1_000_000_000
        invariant nsec >= 0
        invariant sec + nsec / 1_000_000_000 == AbsoluteTimeout(clock.value, ms).sec
        invariant nsec % 1_000_000_000 / 1000 == AbsoluteTimeout(clock.value, ms).usec
      {
        nsec := nsec - 1_000_000_000;
        sec := sec + 1;
      }
      return Some(TimeVal(sec, nsec / 1000));
    }

    // the search loop of add_to_flying_list
    method FindPlace(t: TimeVal) returns (cur: Node, ghost p: nat)
      requires Valid() && t.IsSet()
      ensures p == Position(contents, t, 0) && cur == At(head, nodes, p)
    {
      Follows(0);
      hide Valid;
      cur := head.next;
      p := 0;
      while cur != head
        invariant 0 <= p <= |nodes| && cur == At(head, nodes, p)
        invariant Position(contents, t, p) == Position(contents, t, 0)
        decreases |nodes| - p
      {
        Follows(p);
        Follows(p + 1);
        if !cur.entry.timeout.IsSet() || Later(cur.entry.timeout, t) { return; }
        cur := cur.next;
        p := p + 1;
      }
      Follows(p);
    }

    // list_add_tail of x before position p
    method LinkBefore(x: Node, cur: Node, ghost p: nat)
      requires Valid() && x !in [head] + nodes && p <= |nodes| && cur == At(head, nodes, p)
      modifies this`nodes, this`contents, this`region, x`next, x`prev, region`next, region`prev
      ensures Valid() && nodes == old(nodes)[..p] + [x] + old(nodes)[p..]
      ensures contents == old(contents)[..p] + [x.entry] + old(contents)[p..]
    {
      ghost var s, ns := [head] + nodes, nodes;
      ghost var k := if p < |nodes| then p + 1 else 0;
      ListAddTail(x, cur, s, k);
      InsertBehindHead(head, ns, p, x);
      nodes := ns[..p] + [x] + ns[p..];
      region := region + {x};
      contents := contents[..p] + [x.entry] + contents[p..];
    }

    // list_add of x behind the head of an empty list
    method LinkFirst(x: Node)
      requires Valid() && x !in [head] + nodes && nodes == []
      modifies this`nodes, this`contents, this`region, x`next, x`prev, region`next, region`prev
      ensures Valid() && nodes == [x] && contents == [x.entry]
    {
      ghost var s := [head] + nodes;
      ListAdd(x, head, s, 0);
      assert InsertAfter(s, 0, x) == [head] + [x];
      nodes, contents, region := [x], [x.entry], region + {x};
    }

    method IsEmpty() returns (b: bool)
      requires Valid()
      ensures b <==> nodes == [] && contents == []
    {
      b := ListEmpty(head, [head] + nodes);
    }

    // add_to_flying_list
    method AddToFlyingList(x: Node, ms: nat, clock: Option<TimeSpec>) returns (ok: bool)
      requires Valid() && x !in [head] + nodes
      requires clock.Some? ==> clock.value.nsec < 1_000_000_000
      modifies this`nodes, this`contents, this`region, x, region`next, region`prev
      ensures Valid()
      ensures ok <==> ms == 0 || clock.Some?
      ensures !ok ==> nodes == old(nodes) && contents == old(contents) && x.entry == old(x.entry)
      ensures ok ==> x.entry == old(x.entry).(timeout := if ms == 0 then TimeVal(0, 0) else AbsoluteTimeout(clock.value, ms))
      ensures ok ==> contents == Insert(old(contents), x.entry)
      ensures ok ==>
        var p := Position(old(contents), x.entry.timeout, 0);
        nodes == old(nodes)[..p] + [x] + old(nodes)[p..]
    {
      hide AbsoluteTimeout;
      var t := CalculateTimeout(clock, ms);
      if t == None { return false; }
      x.entry := x.entry.(timeout := t.value);
      assert Valid();
      Follows(0);
      hide Valid;
      var empty := IsEmpty();
      if empty {
        LinkFirst(x);
      } else if !t.value.IsSet() {
        NoPlaceForInfinite(contents, t.value, 0);
        LinkBefore(x, head, |nodes|);
      } else {
        var cur, p := FindPlace(t.value);
        LinkBefore(x, cur, p);
      }
      return true;
    }

    // remove_from_flying_list
    method RemoveFromFlyingList(x: Node, ghost k: nat)
      requires Valid() && k < |nodes| && nodes[k] == x
      modifies this`nodes, this`contents, region`next, region`prev
      ensures Valid() && x !in [head] + nodes && x.next == null
      ensures forall n :: n in old(nodes) <==> n in nodes || n == x
      ensures nodes == old(nodes)[..k] + old(nodes)[k + 1..]
      ensures contents == old(contents)[..k] + old(contents)[k + 1..]
    {
      ghost var s, ns := [head] + nodes, nodes;
      Apart(head, ns, k);
      ListDel(x, s, k + 1);
      RemoveBehindHead(head, ns, k);
      nodes := ns[..k] + ns[k + 1..];
      contents := contents[..k] + contents[k + 1..];
    }

    static lemma RemoveBehindHead<T>(h: T, ns: seq<T>, k: nat)
      requires k < |ns|
      ensures RemoveAt([h] + ns, k + 1) == [h] + (ns[..k] + ns[k + 1..])
    {
    }

    static lemma InsertBehindHead<T>(h: T, ns: seq<T>, p: nat, x: T)
      requires p <= |ns|
      ensures InsertBefore([h] + ns, if p < |ns| then p + 1 else 0, x) == [h] + (ns[..p] + [x] + ns[p..])
    {
    }

    static lemma Apart(h: Node, ns: seq<Node>, k: nat)
      requires k < |ns| && Distinct([h] + ns)
      ensures ns[k] !in [h] + (ns[..k] + ns[k + 1..])
      ensures forall n :: n in ns <==> n in ns[..k] + ns[k + 1..] || n == ns[k]
    {
      var s := [h] + ns;
      assert s[0] == h && s[k + 1] == ns[k];
      forall j | 0 <= j < |ns| && j != k ensures ns[j] != ns[k] {
        assert s[j + 1] == ns[j];
      }
      assert ns == ns[..k] + [ns[k]] + ns[k + 1..];
    }

    // handle_timeout
    method HandleOneTimeout(x: Node, ghost k: nat, backend: nat -> CancelAnswer)
      requires Valid() && k < |nodes| && nodes[k] == x
      modifies x`entry, this`contents
      ensures Valid() && contents == old(contents)[k := HandleTimeout(old(contents)[k], backend)]
    {
      Apart(head, nodes, k);
      x.entry := x.entry.(timeoutHandled := true);
      var (y, r) := CancelTransfer(x.entry, backend(x.entry.id));
      x.entry := y;
      if r == CancelOk { x.entry := x.entry.(timedOut := true); }
      contents := contents[k := x.entry];
      assert forall j :: 0 <= j < |nodes| && j != k ==> nodes[j] != x by {
        assert Distinct([head] + nodes);
        forall j | 0 <= j < |nodes| && j != k ensures nodes[j] != x {
          assert ([head] + nodes)[j + 1] == nodes[j] && ([head] + nodes)[k + 1] == x;
        }
      }
    }

    // the loop body of handle_timeouts_locked
    method ScanOne(cur: Node, ghost l: seq<Xfer>, ghost i: nat, now: TimeVal, backend: nat -> CancelAnswer)
      returns (stop: bool, next: Node)
      requires Valid() && i < |nodes| && cur == At(head, nodes, i) && Scanned(l, contents, i, now, backend)
      modifies this`contents, cur`entry
      ensures Valid() && next == At(head, nodes, i + 1)
      ensures stop ==> contents == EarlyScan(l, now, backend)
      ensures !stop ==> Scanned(l, contents, i + 1, now, backend)
    {
      Follows(i);
      Follows(i + 1);
      hide Valid, Scanned, EarlyScan, HandleTimeout;
      next := cur.next;
      ScanStep(l, contents, i, now, backend);
      if Stops(cur.entry, now) { return true, next; }
      stop := false;
      if Unhandled(cur.entry) { HandleOneTimeout(cur, i, backend); }
    }

    // handle_timeouts_locked; without a clock it gives up, unless it has nothing to do
    method HandleTimeoutsLocked(clock: Option<TimeVal>, backend: nat -> CancelAnswer) returns (ok: bool)
      requires Valid()
      modifies this`contents, region`entry
      ensures Valid()
      ensures ok <==> old(contents) == [] || clock.Some?
      ensures contents == if clock.Some? then EarlyScan(old(contents), clock.value, backend) else old(contents)
    {
      var empty := IsEmpty();
      if empty { return true; }
      if clock == None { return false; }
      ScanAll(clock.value, backend);
      ok := true;
    }

    method ScanAll(now: TimeVal, backend: nat -> CancelAnswer)
      requires Valid()
      modifies this`contents, region`entry
      ensures Valid()
      ensures contents == EarlyScan(old(contents), now, backend)
    {
      ghost var l := contents;
      Follows(0);
      ScanStart(l, now, backend);
      var cur := head.next;
      ghost var i: nat := 0;
      while cur != head
        invariant Valid()
        invariant i <= |nodes| == |contents| && cur == At(head, nodes, i) && (cur == head <==> i == |nodes|)
        invariant Scanned(l, contents, i, now, backend)
        decreases |nodes| - i
      {
        Follows(i);
        var stop, next := ScanOne(cur, l, i, now, backend);
        if stop { return; }
        cur, i := next, i + 1;
        Follows(i);
      }
      ScanEnd(l, contents, now, backend);
    }

    // the search of libusb_get_next_timeout
    method FindNextTimeout() returns (t: Option<TimeVal>)
      requires Valid()
      ensures t == FirstPending(contents)
    {
      ghost var l := contents;
      Follows(0);
      hide Valid;
      var cur := head.next;
      ghost var i := 0;
      while cur != head
        invariant 0 <= i <= |nodes| && cur == At(head, nodes, i)
        invariant FirstPending(l[i..]) == FirstPending(l)
        decreases |nodes| - i
      {
        Follows(i);
        Follows(i + 1);
        assert l[i..][0] == cur.entry && l[i..][1..] == l[i + 1..];
        if Unhandled(cur.entry) {
          return if cur.entry.timeout.IsSet() then Some(cur.entry.timeout) else None;
        }
        cur := cur.next;
        i := i + 1;
      }
      Follows(i);
      return None;
    }

    // libusb_get_next_timeout: None for return value 0, also when the clock cannot be read
    method GetNextTimeout(clock: Option<TimeVal>) returns (tv: Option<TimeVal>)
      requires Valid() && (clock.Some? ==> clock.value.Normal()) && (forall x :: x in contents ==> x.timeout.Normal())
      requires Sorted(contents)
      ensures clock.Some? ==> IsNextTimeout(contents, clock.value, tv)
      ensures clock == None ==> tv == None
    {
      hide Valid, Sorted, FirstPending, IsNextTimeout;
      var t := FindNextTimeout();
      if clock.Some? { NextTimeoutMet(contents, clock.value); }
      if t == None || clock == None { return None; }
      var now := clock.value;
      if !Later(t.value, now) { return Some(TimeVal(0, 0)); }
      return Some(Subtract(t.value, now));
    }

    // one removal in the walk of do_close
    method UnlinkForClose(x: Node, ghost k: nat)
      requires Valid() && k < |nodes| && nodes[k] == x
      modifies this`nodes, this`contents, region`next, region`prev, x`entry
      ensures Valid() && x !in [head] + nodes
      ensures forall n :: n in old(nodes) <==> n in nodes || n == x
      ensures x.next == null && x.entry == old(x.entry).(handle := None)
      ensures nodes == old(nodes)[..k] + old(nodes)[k + 1..]
      ensures contents == old(contents)[..k] + old(contents)[k + 1..]
    {
      RemoveFromFlyingList(x, k);
      x.entry := x.entry.(handle := None);
    }

    // the loop body of do_close
    method CloseOne(cur: Node, ghost l: seq<Xfer>, ghost i: nat, h: nat) returns (next: Node, ghost j: nat)
      requires Valid() && i < |nodes| && cur == At(head, nodes, i) && Closed(l, contents, i, h)
      modifies this`nodes, this`contents, region`next, region`prev, cur`entry
      ensures Valid() && j <= |nodes| == |contents| && next == At(head, nodes, j) && (next == head <==> j == |nodes|)
      ensures Closed(l, contents, j, h)
      ensures |nodes| - j < |old(nodes)| - i
      ensures forall n :: n in nodes ==> n in old(nodes)
      ensures forall n :: n in old(nodes) && n != cur ==> n in nodes
      ensures cur.entry == if cur in nodes then old(cur.entry) else old(cur.entry).(handle := None)
    {
      Follows(i);
      next := NextAfter(cur, i);
      ClosedStep(l, contents, i, h);
      hide Closed;
      j := i;
      if OfHandle(cur.entry, h) {
        UnlinkForClose(cur, i);
      } else {
        j := i + 1;
      }
      Follows(j);
    }

    // the walk of do_close: unlink what the handle still has in flight
    method DoCloseUnlink(h: nat)
      requires Valid()
      modifies this`nodes, this`contents, region`next, region`prev, region`entry
      ensures Valid()
      ensures contents == WithoutHandle(old(contents), h)
      ensures forall n :: n in nodes ==> n in old(nodes)
      ensures forall n :: n in old(nodes) ==>
        n.entry == if n in nodes then old(n.entry) else old(n.entry).(handle := None)
    {
      ghost var l := contents;
      ClosedStart(l, h);
      Follows(0);
      var cur := head.next;
      ghost var i: nat := 0;
      while cur != head
        invariant Valid()
        invariant i <= |nodes| == |contents| && cur == At(head, nodes, i) && (cur == head <==> i == |nodes|)
        invariant Closed(l, contents, i, h)
        invariant forall n :: n in nodes ==> n in old(nodes)
        invariant forall n :: n in old(nodes) ==>
          n.entry == if n in nodes then old(n.entry) else old(n.entry).(handle := None)
        decreases |nodes| - i
      {
        Follows(i);
        cur, i := CloseOne(cur, l, i, h);
      }
      ClosedAll(l, contents, h);
    }

    // Where the walk stands next: at i + 1, or still at i if node i is taken out.
    method NextAfter(cur: Node, ghost i: nat) returns (next: Node)
      requires Valid() && i < |nodes| && cur == At(head, nodes, i)
      ensures next == At(head, nodes, i + 1)
      ensures next == if i < |nodes| - 1 then (nodes[..i] + nodes[i + 1..])[i] else head
    {
      Follows(i);
      Follows(i + 1);
      next := cur.next;
    }

    // The inner search of usbi_handle_disconnect: the first in-flight transfer of the handle.
    method FindInFlight(h: nat) returns (cur: Node, ghost k: nat)
      requires Valid()
      ensures k <= |nodes| == |contents| && cur == At(head, nodes, k)
      ensures cur == head <==> k == |nodes|
      ensures forall i :: 0 <= i < k ==> !Drains(contents[i], h)
      ensures k < |nodes| ==> Drains(contents[k], h) && cur in nodes && cur in region
    {
      Follows(0);
      hide Valid;
      cur := head.next;
      k := 0;
      while cur != head
        invariant 0 <= k <= |nodes| && cur == At(head, nodes, k)
        invariant forall i :: 0 <= i < k ==> !Drains(contents[i], h)
        decreases |nodes| - k
      {
        Follows(k);
        Follows(k + 1);
        if Drains(cur.entry, h) { return; }
        cur := cur.next;
        k := k + 1;
      }
      Follows(k);
    }

    // usbi_handle_transfer_completion with NO_DEVICE. The callback may try to resubmit; on the lost
    // handle that fails, so the transfer is back off the list when the callback returns.
    method CompleteNoDevice(x: Node, ghost k: nat, resubmits: nat -> bool)
      requires Valid() && k < |nodes| && nodes[k] == x
      modifies this`nodes, this`contents, this`noDevice, region`next, region`prev, x`entry
      ensures Valid() && x !in [head] + nodes
      ensures forall n :: n in old(nodes) <==> n in nodes || n == x
      ensures noDevice == old(noDevice) + [old(x.entry.id)]
      ensures !x.entry.inFlight
      ensures nodes == old(nodes)[..k] + old(nodes)[k + 1..]
      ensures contents == old(contents)[..k] + old(contents)[k + 1..]
    {
      RemoveFromFlyingList(x, k);
      x.entry := x.entry.(inFlight := false);
      noDevice := noDevice + [x.entry.id];
      if resubmits(x.entry.id) {
        x.entry := x.entry.(cancelling := false, deviceDisappeared := false, timeoutHandled := false, timedOut := false);
      }
    }

    // usbi_handle_disconnect
    method HandleDisconnect(h: nat, resubmits: nat -> bool)
      requires Valid()
      modifies this`nodes, this`contents, this`noDevice, region`next, region`prev, region`entry
      ensures Valid()
      ensures noDevice == old(noDevice) + DrainIds(old(contents), h)
      ensures contents == Drained(old(contents), h)
      ensures forall n :: n in old(nodes) && !OfHandle(old(n.entry), h) ==> n in nodes && n.entry == old(n.entry)
    {
      hide Valid, Drained, DrainIds, DrainCount, At;
      while true
        invariant Valid()
        invariant noDevice + DrainIds(contents, h) == old(noDevice) + DrainIds(old(contents), h)
        invariant Drained(contents, h) == Drained(old(contents), h)
        invariant forall n :: n in nodes ==> n in old(nodes) && n.entry == old(n.entry)
        invariant forall n :: n in old(nodes) && !OfHandle(old(n.entry), h) ==> n in nodes
        decreases DrainCount(contents, h)
      {
        var toCancel, k := FindInFlight(h);
        if toCancel == head { break; }
        Follows(k);
        DrainStep(contents, h, k);
        CompleteNoDevice(toCancel, k, resubmits);
      }
      DrainNothing(contents, h);
    }
  }

  // What libusb_get_next_timeout promises: the least remaining time of the transfers that wait.
  ghost predicate IsNextTimeout(l: seq<Xfer>, now: TimeVal, tv: Option<TimeVal>)
    requires now.Normal() && forall x :: x in l ==> x.timeout.Normal()
  {
    match tv
    case None => forall i: nat :: !Waiting(l, i)
    case Some(t) =>
      && (exists i: nat :: Waiting(l, i) && t == Remaining(l[i].timeout, now))
      && (forall i: nat :: Waiting(l, i) ==> t.Micros() <= Remaining(l[i].timeout, now).Micros())
  }

  lemma NextTimeoutMet(l: seq<Xfer>, now: TimeVal)
    requires now.Normal() && Sorted(l) && forall x :: x in l ==> x.timeout.Normal()
    ensures match FirstPending(l)
      case None => IsNextTimeout(l, now, None)
      case Some(t) => t.Normal() && IsNextTimeout(l, now, Some(Remaining(t, now)))
  {
    NextTimeoutIsMinimum(l, now);
  }

  // The close walk stands at position i of the list c that is left of l.
  ghost predicate Closed(l: seq<Xfer>, c: seq<Xfer>, i: nat, h: nat) {
    i <= |c| && c[..i] + WithoutHandle(c[i..], h) == WithoutHandle(l, h)
  }

  lemma ClosedStart(l: seq<Xfer>, h: nat)
    ensures Closed(l, l, 0, h)
  {
    assert l[..0] == [] && l[0..] == l;
  }

  lemma ClosedStep(l: seq<Xfer>, c: seq<Xfer>, i: nat, h: nat)
    requires Closed(l, c, i, h) && i < |c|
    ensures OfHandle(c[i], h) ==> Closed(l, c[..i] + c[i + 1..], i, h)
    ensures !OfHandle(c[i], h) ==> Closed(l, c, i + 1, h)
  {
    assert c[i..][0] == c[i] && c[i..][1..] == c[i + 1..];
    if OfHandle(c[i], h) {
      var r := c[..i] + c[i + 1..];
      assert r[..i] == c[..i] && r[i..] == c[i + 1..];
    } else {
      assert c[..i + 1] == c[..i] + [c[i]];
    }
  }

  lemma ClosedAll(l: seq<Xfer>, c: seq<Xfer>, h: nat)
    requires Closed(l, c, |c|, h)
    ensures c == WithoutHandle(l, h)
  {
    assert c[..|c|] == c;
  }

  // The timeout scan of l stands at position i; c is the list as it is now.
  ghost predicate Scanned(l: seq<Xfer>, c: seq<Xfer>, i: nat, now: TimeVal, backend: nat -> CancelAnswer) {
    && i <= |c| == |l|
    && c[i..] == l[i..]
    && c[..i] + EarlyScan(l[i..], now, backend) == EarlyScan(l, now, backend)
  }

  lemma ScanStart(l: seq<Xfer>, now: TimeVal, backend: nat -> CancelAnswer)
    ensures Scanned(l, l, 0, now, backend)
  {
    assert l[0..] == l && l[..0] == [];
  }

  predicate Stops(x: Xfer, now: TimeVal) {
    !x.timeout.IsSet() || (Unhandled(x) && Later(x.timeout, now))
  }

  lemma ScanStep(l: seq<Xfer>, c: seq<Xfer>, i: nat, now: TimeVal, backend: nat -> CancelAnswer)
    requires Scanned(l, c, i, now, backend) && i < |c|
    ensures Stops(c[i], now) ==> c == EarlyScan(l, now, backend)
    ensures !Stops(c[i], now) && Unhandled(c[i]) ==>
              Scanned(l, c[i := HandleTimeout(c[i], backend)], i + 1, now, backend)
    ensures !Stops(c[i], now) && !Unhandled(c[i]) ==> Scanned(l, c, i + 1, now, backend)
  {
    assert c[i] == c[i..][0] == l[i] && l[i..][1..] == l[i + 1..];
    hide HandleTimeout;
    var x := if Unhandled(c[i]) then HandleTimeout(c[i], backend) else c[i];
    if Stops(c[i], now) {
      assert c == c[..i] + c[i..];
    } else {
      assert EarlyScan(l[i..], now, backend) == [x] + EarlyScan(l[i + 1..], now, backend);
      ScanAdvances(l, c, x, i, now, backend);
      if !Unhandled(c[i]) { assert c[i := x] == c; }
    }
  }

  lemma ScanAdvances(l: seq<Xfer>, c: seq<Xfer>, x: Xfer, i: nat, now: TimeVal, backend: nat -> CancelAnswer)
    requires Scanned(l, c, i, now, backend) && i < |c|
    requires EarlyScan(l[i..], now, backend) == [x] + EarlyScan(l[i + 1..], now, backend)
    ensures Scanned(l, c[i := x], i + 1, now, backend)
  {
    hide EarlyScan;
    var c' := c[i := x];
    assert c'[i + 1..] == c[i..][1..] == l[i..][1..] == l[i + 1..];
    assert c'[..i + 1] == c[..i] + [x];
    assert c[..i] + [x] + EarlyScan(l[i + 1..], now, backend) == c[..i] + ([x] + EarlyScan(l[i + 1..], now, backend));
  }

  lemma ScanEnd(l: seq<Xfer>, c: seq<Xfer>, now: TimeVal, backend: nat -> CancelAnswer)
    requires Scanned(l, c, |c|, now, backend)
    ensures c == EarlyScan(l, now, backend)
  {
    assert c[..|c|] == c;
  }

  lemma {:induction false} NoPlaceForInfinite(l: seq<Xfer>, t: TimeVal, i: nat)
    requires i <= |l| && !t.IsSet()
    ensures Position(l, t, i) == |l|
    decreases |l| - i
  {
    if i < |l| { NoPlaceForInfinite(l, t, i + 1); }
  }
}
