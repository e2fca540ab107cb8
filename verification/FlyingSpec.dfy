// The in-flight transfers of libusb-andro/libusb/io.c as a sequence sorted by absolute timeout:
// what insertion, the timeout scan, the next-timeout query, closing and disconnecting do to it.

module FlyingSpec {
  import opened Wrappers

  // struct timeval; (0, 0) means "no timeout"
  datatype TimeVal = TimeVal(sec: nat, usec: nat) {
    predicate IsSet() { sec != 0 || usec != 0 }
    predicate Normal() { usec < 1_000_000 }
    function Micros(): nat { sec * 1_000_000 + usec }
  }

  datatype TimeSpec = TimeSpec(sec: nat, nsec: nat)

  // the comparison written out in add_to_flying_list and handle_timeouts_locked
  predicate Later(a: TimeVal, b: TimeVal) {
    a.sec > b.sec || (a.sec == b.sec && a.usec > b.usec)
  }

  lemma LaterIsOrder(a: TimeVal, b: TimeVal)
    requires a.Normal() && b.Normal()
    ensures Later(a, b) <==> a.Micros() > b.Micros()
  {
  }

  // A usbi_transfer on the list. stamp numbers the submissions.
  datatype Xfer = Xfer(
    id: nat, stamp: nat, handle: Option<nat>, timeout: TimeVal,
    inFlight: bool, cancelling: bool, deviceDisappeared: bool,
    timeoutHandled: bool, osHandlesTimeout: bool, timedOut: bool)

  // ---------------------------------------------------------------- absolute timeouts

  // calculate_timeout: the clock plus a relative timeout in milliseconds, 0 for none
  function AbsoluteTimeout(now: TimeSpec, ms: nat): TimeVal
  {
    if ms == 0 then TimeVal(0, 0)
    else
      var nsec := now.nsec + (ms % 1000) * 1_000_000;
      TimeVal(now.sec + ms / 1000 + nsec / 1_000_000_000, nsec % 1_000_000_000 / 1000)
  }

  // The stored timeout is the clock plus the request, rounded down to microseconds; it counts as
  // set exactly when one was asked for.
  lemma AbsoluteTimeoutMeaning(now: TimeSpec, ms: nat)
    requires now.nsec < 1_000_000_000
    ensures var t := AbsoluteTimeout(now, ms);
      && t.Normal()
      && (t.IsSet() <==> ms != 0)
      && (ms != 0 ==> t.Micros() == now.sec * 1_000_000 + now.nsec / 1000 + ms * 1000)
  {
    var a, b := ms / 1000, ms % 1000;
    assert ms == 1000 * a + b;
    var nsec := now.nsec + b * 1_000_000;
    if ms != 0 && nsec < 1_000_000_000 && a == 0 {
      assert nsec >= 1_000_000;
    }
  }

  // ---------------------------------------------------------------- the sorted list

  predicate NoLater(a: TimeVal, b: TimeVal) {
    !b.IsSet() || (a.IsSet() && !Later(a, b))
  }

  // By timeout, infinite ones last, and equal ones in the order of submission.
  ghost predicate Ordered(a: Xfer, b: Xfer) {
    NoLater(a.timeout, b.timeout) && (NoLater(b.timeout, a.timeout) ==> a.stamp < b.stamp)
  }

  ghost predicate Sorted(l: seq<Xfer>) {
    forall i, j :: 0 <= i < j < |l| ==> Ordered(l[i], l[j])
  }

  // The first entry that a transfer with timeout t goes in front of.
  function Position(l: seq<Xfer>, t: TimeVal, i: nat): (p: nat)
    requires i <= |l|
    ensures i <= p <= |l|
    decreases |l| - i
  {
    if i == |l| || (t.IsSet() && (!l[i].timeout.IsSet() || Later(l[i].timeout, t))) then i
    else Position(l, t, i + 1)
  }

  function Insert(l: seq<Xfer>, x: Xfer): seq<Xfer> {
    var p := Position(l, x.timeout, 0);
    l[..p] + [x] + l[p..]
  }

  lemma {:induction false} PositionSplits(l: seq<Xfer>, t: TimeVal, i: nat)
    requires i <= |l| && Sorted(l)
    ensures var p := Position(l, t, i);
      && (forall j :: i <= j < p ==> NoLater(l[j].timeout, t))
      && (forall j :: p <= j < |l| ==> !NoLater(l[j].timeout, t))
    decreases |l| - i
  {
    if i < |l| {
      if t.IsSet() && (!l[i].timeout.IsSet() || Later(l[i].timeout, t)) {
        forall j | i <= j < |l| ensures !NoLater(l[j].timeout, t) {
          if i < j { assert Ordered(l[i], l[j]); }
        }
      } else {
        PositionSplits(l, t, i + 1);
      }
    }
  }

  // Insertion keeps the list sorted, ties in submission order, and adds exactly the transfer.
  lemma InsertKeepsSorted(l: seq<Xfer>, x: Xfer)
    requires Sorted(l) && forall y :: y in l ==> y.stamp < x.stamp
    ensures Sorted(Insert(l, x))
    ensures multiset(Insert(l, x)) == multiset(l) + multiset{x}
  {
    var p := Position(l, x.timeout, 0);
    PositionSplits(l, x.timeout, 0);
    var r := Insert(l, x);
    forall i, j | 0 <= i < j < |r| ensures Ordered(r[i], r[j]) {
      if i != p && j != p {
        var i', j' := if i < p then i else i - 1, if j < p then j else j - 1;
        assert Ordered(l[i'], l[j']);
      } else if j == p {
        assert NoLater(l[i].timeout, x.timeout) && l[i] in l;
      }
    }
    assert l == l[..p] + l[p..];
  }

  function Keep(l: seq<Xfer>, f: Xfer -> bool): (r: seq<Xfer>)
    ensures forall x :: x in r ==> x in l && f(x)
  {
    if l == [] then [] else (if f(l[0]) then [l[0]] else []) + Keep(l[1..], f)
  }

  // Whatever is taken out, the rest stays sorted.
  lemma {:induction false} KeepStaysSorted(l: seq<Xfer>, f: Xfer -> bool)
    requires Sorted(l)
    ensures Sorted(Keep(l, f))
    ensures forall x :: x in l && f(x) ==> x in Keep(l, f)
  {
    if l != [] {
      KeepStaysSorted(l[1..], f);
      var r := Keep(l[1..], f);
      forall y | y in r ensures Ordered(l[0], y) {
        var k :| 0 <= k < |l[1..]| && l[1..][k] == y;
        assert l[k + 1] == y;
      }
    }
  }

  // ---------------------------------------------------------------- cancelling and timing out

  datatype CancelAnswer = CancelOk | NotFound | NoDevice | OtherError

  // libusb_cancel_transfer, with the backend's answer
  function CancelTransfer(x: Xfer, backend: CancelAnswer): (Xfer, CancelAnswer) {
    if !x.inFlight || x.cancelling then (x, NotFound)
    else (x.(cancelling := true, deviceDisappeared := x.deviceDisappeared || backend == NoDevice), backend)
  }

  // handle_timeout
  function HandleTimeout(x: Xfer, backend: nat -> CancelAnswer): Xfer {
    var (y, r) := CancelTransfer(x.(timeoutHandled := true), backend(x.id));
    y.(timedOut := y.timedOut || r == CancelOk)
  }

  // A timeout is marked as handled whatever happens, and the transfer as timed out only if this
  // cancel is the one that succeeded; nothing else about it changes but the marks of the cancel.
  lemma TimeoutMarksSuccessOnly(x: Xfer, backend: nat -> CancelAnswer)
    ensures var y := HandleTimeout(x, backend);
            && !Unhandled(y) && y.timeoutHandled
            && (y.timedOut <==> x.timedOut || (x.inFlight && !x.cancelling && backend(x.id) == CancelOk))
            && (x.inFlight ==> y.cancelling)
            && (y.deviceDisappeared <==>
                  x.deviceDisappeared || (x.inFlight && !x.cancelling && backend(x.id) == NoDevice))
            && y.(timeoutHandled := x.timeoutHandled, timedOut := x.timedOut, cancelling := x.cancelling,
                  deviceDisappeared := x.deviceDisappeared) == x
    // so no later cancel, by the user or by a timeout, can succeed until the next submission
    ensures forall a :: CancelTransfer(HandleTimeout(x, backend), a).1 == NotFound
  {
  }

  predicate Unhandled(x: Xfer) { !x.timeoutHandled && !x.osHandlesTimeout }

  predicate Due(x: Xfer, now: TimeVal) {
    x.timeout.IsSet() && Unhandled(x) && !Later(x.timeout, now)
  }

  // A transfer is due if it has a timeout that the clock has reached and that neither a scan nor the
  // kernel has dealt with.
  lemma DueMeans(x: Xfer, now: TimeVal)
    requires x.timeout.Normal() && now.Normal()
    ensures Due(x, now) <==>
              && (x.timeout.sec != 0 || x.timeout.usec != 0) && !x.timeoutHandled && !x.osHandlesTimeout
              && x.timeout.sec * 1_000_000 + x.timeout.usec <= now.sec * 1_000_000 + now.usec
  {
    LaterIsOrder(x.timeout, now);
  }

  // A cancel fails on a transfer that is not in flight or was cancelled before. Any other is marked, and
  // the backend's answer is passed on.
  lemma CancelMeans(x: Xfer, backend: CancelAnswer)
    ensures var (y, r) := CancelTransfer(x, backend);
            && r == (if x.inFlight && !x.cancelling then backend else NotFound)
            && y == if x.inFlight && !x.cancelling
                    then x.(cancelling := true, deviceDisappeared := x.deviceDisappeared || backend == NoDevice) else x
  {
  }

  // handle_timeouts_locked stops at the first infinite or unexpired timeout it has to look at ...
  function EarlyScan(l: seq<Xfer>, now: TimeVal, backend: nat -> CancelAnswer): (r: seq<Xfer>)
    ensures |r| == |l|
  {
    if l == [] || !l[0].timeout.IsSet() then l
    else if !Unhandled(l[0]) then [l[0]] + EarlyScan(l[1..], now, backend)
    else if Later(l[0].timeout, now) then l
    else [HandleTimeout(l[0], backend)] + EarlyScan(l[1..], now, backend)
  }

  // ... and on a sorted list does what looking at every transfer would do.
  lemma {:induction false} EarlyScanIsFullScan(l: seq<Xfer>, now: TimeVal, backend: nat -> CancelAnswer)
    requires Sorted(l)
    ensures var r := EarlyScan(l, now, backend);
      forall i :: 0 <= i < |l| ==> r[i] == if Due(l[i], now) then HandleTimeout(l[i], backend) else l[i]
  {
    if l != [] {
      var r := EarlyScan(l, now, backend);
      if !l[0].timeout.IsSet() || (Unhandled(l[0]) && Later(l[0].timeout, now)) {
        forall i | 0 <= i < |l| ensures !Due(l[i], now) {
          if 0 < i { assert Ordered(l[0], l[i]); }
        }
      } else {
        assert Sorted(l[1..]);
        EarlyScanIsFullScan(l[1..], now, backend);
        forall i | 0 <= i < |l| ensures r[i] == if Due(l[i], now) then HandleTimeout(l[i], backend) else l[i] {
          if 0 < i { assert l[i] == l[1..][i - 1] && r[i] == EarlyScan(l[1..], now, backend)[i - 1]; }
        }
      }
    }
  }

  lemma EarlyScanStaysSorted(l: seq<Xfer>, now: TimeVal, backend: nat -> CancelAnswer)
    requires Sorted(l)
    ensures Sorted(EarlyScan(l, now, backend))
  {
    EarlyScanIsFullScan(l, now, backend);
    var r := EarlyScan(l, now, backend);
    forall i, j | 0 <= i < j < |r| ensures Ordered(r[i], r[j]) {
      assert Ordered(l[i], l[j]);
    }
  }

  // A scan acts on each expired transfer once: a second scan at the same time changes nothing.
  lemma EarlyScanIsIdempotent(l: seq<Xfer>, now: TimeVal, b1: nat -> CancelAnswer, b2: nat -> CancelAnswer)
    requires Sorted(l)
    ensures EarlyScan(EarlyScan(l, now, b1), now, b2) == EarlyScan(l, now, b1)
  {
    var r := EarlyScan(l, now, b1);
    EarlyScanIsFullScan(l, now, b1);
    EarlyScanStaysSorted(l, now, b1);
    EarlyScanIsFullScan(r, now, b2);
  }

  // ---------------------------------------------------------------- the next timeout

  // The first transfer libusb_get_next_timeout does not skip, if it has a timeout.
  function FirstPending(l: seq<Xfer>): Option<TimeVal> {
    if l == [] then None
    else if !Unhandled(l[0]) then FirstPending(l[1..])
    else if l[0].timeout.IsSet() then Some(l[0].timeout) else None
  }

  // timersub
  function Subtract(a: TimeVal, b: TimeVal): TimeVal
    requires a.Normal() && b.Normal() && Later(a, b)
  {
    if a.usec >= b.usec then TimeVal(a.sec - b.sec, a.usec - b.usec)
    else TimeVal(a.sec - b.sec - 1, a.usec + 1_000_000 - b.usec)
  }

  function Remaining(t: TimeVal, now: TimeVal): (r: TimeVal)
    requires t.Normal() && now.Normal()
    ensures r.Normal() && r.Micros() == if t.Micros() > now.Micros() then t.Micros() - now.Micros() else 0
  {
    if Later(t, now) then Subtract(t, now) else TimeVal(0, 0)
  }

  ghost predicate Waiting(l: seq<Xfer>, i: nat) {
    i < |l| && l[i].timeout.IsSet() && Unhandled(l[i])
  }

  // On a sorted list that first transfer has the least timeout of all that still have to expire.
  lemma {:induction false} FirstPendingIsLeast(l: seq<Xfer>)
    requires Sorted(l)
    ensures match FirstPending(l)
      case None => forall i: nat :: !Waiting(l, i)
      case Some(t) =>
        && (exists i: nat :: Waiting(l, i) && l[i].timeout == t)
        && (forall i: nat :: Waiting(l, i) ==> !Later(t, l[i].timeout))
  {
    if l != [] {
      if Unhandled(l[0]) {
        assert l[0].timeout.IsSet() ==> Waiting(l, 0);
        forall i: nat | Waiting(l, i) ensures l[0].timeout.IsSet() && !Later(l[0].timeout, l[i].timeout) {
          if 0 < i { assert Ordered(l[0], l[i]); }
        }
      } else {
        assert Sorted(l[1..]);
        FirstPendingIsLeast(l[1..]);
        forall i: nat ensures Waiting(l, i + 1) <==> Waiting(l[1..], i) {}
        if FirstPending(l).Some? {
          var t := FirstPending(l).value;
          var i: nat :| Waiting(l[1..], i) && l[1..][i].timeout == t;
          assert Waiting(l, i + 1);
        }
        forall i: nat | Waiting(l, i) ensures i > 0 && Waiting(l[1..], i - 1) && l[1..][i - 1] == l[i] {}
      }
    }
  }

  // What libusb_get_next_timeout answers is the minimum, over all transfers with a timeout still
  // to be handled, of the time that remains, and it is clamped at zero.
  lemma NextTimeoutIsMinimum(l: seq<Xfer>, now: TimeVal)
    requires Sorted(l) && now.Normal() && forall x :: x in l ==> x.timeout.Normal()
    ensures match FirstPending(l)
      case None => forall i: nat :: !Waiting(l, i)
      case Some(t) =>
        && t.Normal()
        && (exists i: nat :: Waiting(l, i) && Remaining(t, now) == Remaining(l[i].timeout, now))
        && (forall i: nat :: Waiting(l, i) ==> Remaining(t, now).Micros() <= Remaining(l[i].timeout, now).Micros())
  {
    FirstPendingIsLeast(l);
    if FirstPending(l).Some? {
      var t := FirstPending(l).value;
      var i: nat :| Waiting(l, i) && l[i].timeout == t;
      assert l[i] in l;
      forall j: nat | Waiting(l, j) ensures Remaining(t, now).Micros() <= Remaining(l[j].timeout, now).Micros() {
        assert l[j] in l;
        LaterIsOrder(t, l[j].timeout);
      }
    }
  }

  // ---------------------------------------------------------------- closing and disconnecting

  predicate OfHandle(x: Xfer, h: nat) { x.handle == Some(h) }

  predicate Drains(x: Xfer, h: nat) { OfHandle(x, h) && x.inFlight }

  function DrainCount(l: seq<Xfer>, h: nat): nat {
    if l == [] then 0 else (if Drains(l[0], h) then 1 else 0) + DrainCount(l[1..], h)
  }

  // The transfers usbi_handle_disconnect completes, in list order.
  function DrainIds(l: seq<Xfer>, h: nat): (ids: seq<nat>)
    ensures |ids| == DrainCount(l, h)
  {
    if l == [] then [] else (if Drains(l[0], h) then [l[0].id] else []) + DrainIds(l[1..], h)
  }

  function WithoutHandle(l: seq<Xfer>, h: nat): seq<Xfer> { Keep(l, x => !OfHandle(x, h)) }

  function Drained(l: seq<Xfer>, h: nat): seq<Xfer> { Keep(l, x => !Drains(x, h)) }

  // Taking the first in-flight transfer of the handle out is one step of the drain.
  lemma {:induction false} DrainStep(l: seq<Xfer>, h: nat, k: nat)
    requires k < |l| && Drains(l[k], h) && forall i :: 0 <= i < k ==> !Drains(l[i], h)
    ensures var r := l[..k] + l[k + 1..];
      && DrainIds(l, h) == [l[k].id] + DrainIds(r, h)
      && DrainCount(l, h) == DrainCount(r, h) + 1
      && Drained(l, h) == Drained(r, h)
  {
    var r := l[..k] + l[k + 1..];
    if k == 0 {
      assert r == l[1..];
    } else {
      DrainStep(l[1..], h, k - 1);
      assert r[1..] == l[1..][..k - 1] + l[1..][k..];
      assert r[0] == l[0];
    }
  }

  lemma {:induction false} DrainNothing(l: seq<Xfer>, h: nat)
    requires forall i :: 0 <= i < |l| ==> !Drains(l[i], h)
    ensures DrainIds(l, h) == [] && Drained(l, h) == l
  {
    if l != [] { DrainNothing(l[1..], h); }
  }

  lemma {:induction false} KeepConcat(a: seq<Xfer>, b: seq<Xfer>, f: Xfer -> bool)
    ensures Keep(a + b, f) == Keep(a, f) + Keep(b, f)
  {
    if a == [] {
      assert a + b == b;
    } else {
      assert (a + b)[1..] == a[1..] + b;
      KeepConcat(a[1..], b, f);
    }
  }

  function KeepOne(x: Xfer, f: Xfer -> bool): seq<Xfer> { if f(x) then [x] else [] }

  lemma KeepAround(a: seq<Xfer>, x: Xfer, b: seq<Xfer>, f: Xfer -> bool)
    ensures Keep(a + [x] + b, f) == Keep(a, f) + KeepOne(x, f) + Keep(b, f)
  {
    assert [x][1..] == [];
    assert Keep([x], f) == KeepOne(x, f);
    KeepConcat(a + [x], b, f);
    KeepConcat(a, [x], f);
    hide Keep, KeepOne;
  }

  lemma Around(l: seq<Xfer>, i: nat)
    requires i < |l|
    ensures l == l[..i] + [l[i]] + l[i + 1..]
  {
  }

  // A close keeps exactly the transfers of other handles, each in its place.
  lemma WithoutHandleAt(l: seq<Xfer>, h: nat, i: nat)
    requires i < |l|
    ensures WithoutHandle(l, h)
            == WithoutHandle(l[..i], h) + (if l[i].handle == Some(h) then [] else [l[i]]) + WithoutHandle(l[i + 1..], h)
  {
    Around(l, i);
    KeepAround(l[..i], l[i], l[i + 1..], x => !OfHandle(x, h));
    hide Keep;
  }

  // A drain keeps exactly the transfers that are of other handles or not in flight, and completes exactly
  // the others, each in its place.
  lemma DrainedAt(l: seq<Xfer>, h: nat, i: nat)
    requires i < |l|
    ensures var gone := l[i].handle == Some(h) && l[i].inFlight;
            && Drained(l, h) == Drained(l[..i], h) + (if gone then [] else [l[i]]) + Drained(l[i + 1..], h)
            && DrainIds(l, h) == DrainIds(l[..i], h) + (if gone then [l[i].id] else []) + DrainIds(l[i + 1..], h)
  {
    Around(l, i);
    KeepAround(l[..i], l[i], l[i + 1..], x => !Drains(x, h));
    hide Keep, DrainIds;
    DrainIdsAround(l[..i], l[i], l[i + 1..], h);
  }

  // ---------------------------------------------------------------- the drain among other threads

  // usbi_handle_disconnect gives the list back between two of its transfers. What can happen to the
  // list then: its own next turn, and what other threads do in between. They cannot complete a
  // transfer, for that takes events_lock, which the disconnect holds.
  datatype Turn =
    | Drain                                                // the next turn of the loop
    | Submitted(x: Xfer)                                   // linked, not yet handed to the kernel
    | Accepted(k: nat) | Refused(k: nat)                   // by the kernel
    | Cancelled(k: nat, answer: CancelAnswer)
    | TimedOut(now: TimeVal, backend: nat -> CancelAnswer)

  predicate TurnOk(l: seq<Xfer>, t: Turn) {
    match t
    case Submitted(x) => !x.inFlight
    case Accepted(k) => k < |l| && !l[k].inFlight
    case Refused(k) => k < |l| && !l[k].inFlight
    case _ => true
  }

  // The first in-flight transfer of the handle, or |l|.
  function FirstDrained(l: seq<Xfer>, h: nat): (k: nat)
    ensures k <= |l| && (k < |l| ==> Drains(l[k], h))
    ensures forall i :: 0 <= i < k ==> !Drains(l[i], h)
  {
    if l == [] || Drains(l[0], h) then 0 else 1 + FirstDrained(l[1..], h)
  }

  function AfterTurn(l: seq<Xfer>, h: nat, t: Turn): seq<Xfer>
    requires TurnOk(l, t)
  {
    match t
    case Drain => var k := FirstDrained(l, h); if k < |l| then l[..k] + l[k + 1..] else l
    case Submitted(x) => Insert(l, x)
    case Accepted(k) => l[k := l[k].(inFlight := true)]
    case Refused(k) => l[..k] + l[k + 1..]
    case Cancelled(k, answer) => if k < |l| then l[k := CancelTransfer(l[k], answer).0] else l
    case TimedOut(now, backend) => EarlyScan(l, now, backend)
  }

  // What a turn completes with NO_DEVICE, and what it adds to the handle's in-flight transfers.
  function Completes(l: seq<Xfer>, h: nat, t: Turn): seq<nat> {
    if t.Drain? && FirstDrained(l, h) < |l| then [l[FirstDrained(l, h)].id] else []
  }

  function Adds(l: seq<Xfer>, h: nat, t: Turn): seq<nat>
    requires TurnOk(l, t)
  {
    if t.Accepted? && OfHandle(l[t.k], h) then [l[t.k].id] else []
  }

  datatype Draining = Draining(list: seq<Xfer>, completed: seq<nat>, added: seq<nat>)

  ghost predicate TurnsOk(l: seq<Xfer>, h: nat, ts: seq<Turn>) {
    ts != [] ==> TurnsOk(l, h, ts[..|ts| - 1]) && TurnOk(AfterTurns(l, h, ts[..|ts| - 1]).list, ts[|ts| - 1])
  }

  ghost function AfterTurns(l: seq<Xfer>, h: nat, ts: seq<Turn>): Draining {
    if ts == [] then Draining(l, [], [])
    else
      var d := AfterTurns(l, h, ts[..|ts| - 1]);
      var t := ts[|ts| - 1];
      if TurnOk(d.list, t) then Draining(AfterTurn(d.list, h, t), d.completed + Completes(d.list, h, t), d.added + Adds(d.list, h, t))
      else d
  }

  lemma {:induction false} DrainIdsConcat(a: seq<Xfer>, b: seq<Xfer>, h: nat)
    ensures DrainIds(a + b, h) == DrainIds(a, h) + DrainIds(b, h)
  {
    if a == [] {
      assert a + b == b;
    } else {
      assert (a + b)[1..] == a[1..] + b;
      DrainIdsConcat(a[1..], b, h);
    }
  }

  function IdIf(x: Xfer, h: nat): seq<nat> { if Drains(x, h) then [x.id] else [] }

  lemma DrainIdsAround(a: seq<Xfer>, x: Xfer, b: seq<Xfer>, h: nat)
    ensures DrainIds(a + [x] + b, h) == DrainIds(a, h) + IdIf(x, h) + DrainIds(b, h)
    ensures DrainIds(a + b, h) == DrainIds(a, h) + DrainIds(b, h)
  {
    DrainIdsConcat(a + [x], b, h);
    DrainIdsConcat(a, [x], h);
    DrainIdsConcat(a, b, h);
  }

  lemma {:induction false} ScanKeepsDrainIds(l: seq<Xfer>, now: TimeVal, backend: nat -> CancelAnswer, h: nat)
    ensures DrainIds(EarlyScan(l, now, backend), h) == DrainIds(l, h)
  {
    if l != [] {
      ScanKeepsDrainIds(l[1..], now, backend, h);
      var r := EarlyScan(l, now, backend);
      if r != l {
        assert r[1..] == EarlyScan(l[1..], now, backend);
        assert IdIf(r[0], h) == IdIf(l[0], h);
      }
    }
  }

  // Of start and what was added, some are completed and the others left; in order, if none was added.
  ghost predicate Balanced(start: seq<nat>, added: seq<nat>, completed: seq<nat>, left: seq<nat>) {
    && multiset(completed + left) == multiset(start) + multiset(added)
    && (added == [] ==> completed + left == start)
  }

  lemma BalancedAlike(start: seq<nat>)
    ensures Balanced(start, [], [], start)
  {
    assert [] + start == start;
  }

  lemma BalancedAdd(a: seq<nat>, y: seq<nat>, b: seq<nat>)
    ensures Balanced(a + b, y, [], a + y + b)
  {
    assert [] + (a + y + b) == a + y + b;
    assert y == [] ==> a + y + b == a + b;
  }

  lemma BalancedThen(start: seq<nat>, added: seq<nat>, completed: seq<nat>, left: seq<nat>,
                     added': seq<nat>, completed': seq<nat>, left': seq<nat>)
    requires Balanced(start, added, completed, left) && Balanced(left, added', completed', left')
    ensures Balanced(start, added + added', completed + completed', left')
  {
    assert completed + completed' + left' == completed + (completed' + left');
    assert multiset(completed + (completed' + left')) == multiset(completed) + multiset(completed' + left');
    assert multiset(completed + left) == multiset(completed) + multiset(left);
    assert multiset(added + added') == multiset(added) + multiset(added');
    SumsAssociate(multiset(completed), multiset(left), multiset(added'));
    SumsAssociate(multiset(start), multiset(added), multiset(added'));
  }

  lemma SumsAssociate(x: multiset<nat>, y: multiset<nat>, z: multiset<nat>)
    ensures x + (y + z) == (x + y) + z
  {
  }

  lemma ReplaceKeepsDrain(l: seq<Xfer>, k: nat, y: Xfer, h: nat)
    requires k < |l| && (IdIf(l[k], h) == [] || IdIf(y, h) == IdIf(l[k], h))
    ensures Balanced(DrainIds(l, h), if IdIf(l[k], h) == [] then IdIf(y, h) else [], [], DrainIds(l[k := y], h))
  {
    hide DrainIds, IdIf, Balanced;
    DrainIdsAround(l[..k], l[k], l[k + 1..], h);
    DrainIdsAround(l[..k], y, l[k + 1..], h);
    assert l == l[..k] + [l[k]] + l[k + 1..] && l[k := y] == l[..k] + [y] + l[k + 1..];
    var a, b := DrainIds(l[..k], h), DrainIds(l[k + 1..], h);
    if IdIf(l[k], h) == [] {
      assert a + [] + b == a + b;
      BalancedAdd(a, IdIf(y, h), b);
    } else {
      BalancedAlike(DrainIds(l, h));
    }
  }

  lemma InsertKeepsDrain(l: seq<Xfer>, x: Xfer, h: nat)
    requires !x.inFlight
    ensures DrainIds(Insert(l, x), h) == DrainIds(l, h)
  {
    var p := Position(l, x.timeout, 0);
    var r := Insert(l, x);
    assert r == l[..p] + [x] + l[p..];
    hide DrainIds, Insert;
    DrainIdsAround(l[..p], x, l[p..], h);
    assert l == l[..p] + l[p..];
  }

  lemma RemoveKeepsDrain(l: seq<Xfer>, k: nat, h: nat)
    requires k < |l| && !l[k].inFlight
    ensures DrainIds(l[..k] + l[k + 1..], h) == DrainIds(l, h)
  {
    hide DrainIds;
    DrainIdsAround(l[..k], l[k], l[k + 1..], h);
    assert l == l[..k] + [l[k]] + l[k + 1..];
  }

  // One turn: what is completed and what is still to be are together what was there and what came.
  lemma TurnKeepsDrain(l: seq<Xfer>, h: nat, t: Turn)
    requires TurnOk(l, t)
    ensures Balanced(DrainIds(l, h), Adds(l, h, t), Completes(l, h, t), DrainIds(AfterTurn(l, h, t), h))
  {
    hide DrainIds, Insert, EarlyScan, Balanced, CancelTransfer;
    BalancedAlike(DrainIds(l, h));
    match t {
      case Drain => DrainTurn(l, h);
      case Submitted(x) => InsertKeepsDrain(l, x, h);
      case Accepted(k) => ReplaceKeepsDrain(l, k, l[k].(inFlight := true), h);
      case Refused(k) => RemoveKeepsDrain(l, k, h);
      case Cancelled(k, answer) => CancelKeepsDrain(l, k, answer, h);
      case TimedOut(now, backend) => ScanKeepsDrainIds(l, now, backend, h);
    }
  }

  lemma DrainTurn(l: seq<Xfer>, h: nat)
    ensures Balanced(DrainIds(l, h), [], Completes(l, h, Drain), DrainIds(AfterTurn(l, h, Drain), h))
  {
    var k := FirstDrained(l, h);
    if k < |l| { DrainStep(l, h, k); } else { BalancedAlike(DrainIds(l, h)); }
    hide DrainIds;
  }

  lemma CancelKeepsDrain(l: seq<Xfer>, k: nat, answer: CancelAnswer, h: nat)
    ensures k < |l| ==> Balanced(DrainIds(l, h), [], [], DrainIds(l[k := CancelTransfer(l[k], answer).0], h))
  {
    if k < |l| {
      hide DrainIds, Balanced;
      ReplaceKeepsDrain(l, k, CancelTransfer(l[k], answer).0, h);
    }
  }

  lemma TurnsStep(l: seq<Xfer>, h: nat, ts: seq<Turn>)
    requires TurnsOk(l, h, ts) && ts != []
    ensures var d, d', t := AfterTurns(l, h, ts[..|ts| - 1]), AfterTurns(l, h, ts), ts[|ts| - 1];
            && TurnsOk(l, h, ts[..|ts| - 1]) && TurnOk(d.list, t)
            && d'.list == AfterTurn(d.list, h, t)
            && d'.completed == d.completed + Completes(d.list, h, t)
            && d'.added == d.added + Adds(d.list, h, t)
  {
    hide TurnOk, AfterTurn, Completes, Adds;
  }

  // However the loop and the others take turns: every transfer of the handle that was in flight when
  // it began, or that the kernel has accepted since, has been completed once or still waits for its
  // turn. If none was accepted meanwhile, they are completed in list order.
  lemma {:induction false} DrainUnderInterference(l: seq<Xfer>, h: nat, ts: seq<Turn>)
    requires TurnsOk(l, h, ts)
    ensures var d := AfterTurns(l, h, ts);
            Balanced(DrainIds(l, h), d.added, d.completed, DrainIds(d.list, h))
  {
    hide Balanced, DrainIds, TurnOk, AfterTurn, Completes, Adds;
    if ts == [] {
      BalancedAlike(DrainIds(l, h));
    } else {
      TurnsStep(l, h, ts);
      hide AfterTurns, TurnsOk;
      var ts', t := ts[..|ts| - 1], ts[|ts| - 1];
      DrainUnderInterference(l, h, ts');
      var d, d' := AfterTurns(l, h, ts'), AfterTurns(l, h, ts);
      TurnKeepsDrain(d.list, h, t);
      BalancedThen(DrainIds(l, h), d.added, d.completed, DrainIds(d.list, h),
                   Adds(d.list, h, t), Completes(d.list, h, t), DrainIds(d'.list, h));
    }
  }

  lemma RemoveFromWithout(l: seq<Xfer>, k: nat, h: nat)
    requires k < |l| && OfHandle(l[k], h)
    ensures WithoutHandle(l[..k] + l[k + 1..], h) == WithoutHandle(l, h)
  {
    assert l[k..] == [l[k]] + l[k + 1..] && l[k..][1..] == l[k + 1..] && l == l[..k] + l[k..];
    assert WithoutHandle(l[k..], h) == WithoutHandle(l[k + 1..], h);
    KeepConcat(l[..k], l[k..], x => !OfHandle(x, h));
    KeepConcat(l[..k], l[k + 1..], x => !OfHandle(x, h));
  }

  // The loop's own turns leave every other transfer where it is, and it stops when none of the handle
  // is in flight.
  lemma DrainSparesOthers(l: seq<Xfer>, h: nat)
    ensures WithoutHandle(AfterTurn(l, h, Drain), h) == WithoutHandle(l, h)
    ensures AfterTurn(l, h, Drain) == l <==> DrainIds(l, h) == []
  {
    var k := FirstDrained(l, h);
    hide WithoutHandle, DrainIds;
    if k < |l| {
      RemoveFromWithout(l, k, h);
      DrainStep(l, h, k);
      assert |l[..k] + l[k + 1..]| == |l| - 1;
    } else {
      DrainNothing(l, h);
    }
  }

  // ---------------------------------------------------------------- over whole runs

  // What happens to the list, each step under flying_transfers_lock.
  datatype Step =
    | Submit(x: Xfer)                                      // add_to_flying_list
    | Complete(k: nat)                                     // remove_from_flying_list
    | Scan(now: TimeVal, backend: nat -> CancelAnswer)     // handle_timeouts
    | UserCancel(k: nat, answer: CancelAnswer)             // libusb_cancel_transfer
    | Close(h: nat)                                        // do_close
    | Disconnect(h: nat)                                   // usbi_handle_disconnect

  // Stamps count the submissions.
  function After(l: seq<Xfer>, stamp: nat, s: Step): seq<Xfer> {
    match s
    case Submit(x) => Insert(l, x.(stamp := stamp))
    case Complete(k) => if k < |l| then l[..k] + l[k + 1..] else l
    case Scan(now, backend) => EarlyScan(l, now, backend)
    case UserCancel(k, answer) => if k < |l| then l[k := CancelTransfer(l[k], answer).0] else l
    case Close(h) => WithoutHandle(l, h)
    case Disconnect(h) => Drained(l, h)
  }

  function ListAfter(steps: seq<Step>): seq<Xfer> {
    if steps == [] then []
    else After(ListAfter(steps[..|steps| - 1]), |steps|, steps[|steps| - 1])
  }

  ghost predicate Stamped(l: seq<Xfer>, n: nat) { forall x :: x in l ==> x.stamp <= n }

  lemma RemoveStaysSorted(l: seq<Xfer>, k: nat)
    requires Sorted(l) && k < |l|
    ensures Sorted(l[..k] + l[k + 1..])
  {
    var r := l[..k] + l[k + 1..];
    forall i, j | 0 <= i < j < |r| ensures Ordered(r[i], r[j]) {
      assert Ordered(l[if i < k then i else i + 1], l[if j < k then j else j + 1]);
    }
  }

  lemma CancelStaysSorted(l: seq<Xfer>, k: nat, answer: CancelAnswer)
    requires Sorted(l) && k < |l|
    ensures Sorted(l[k := CancelTransfer(l[k], answer).0])
  {
    var r := l[k := CancelTransfer(l[k], answer).0];
    forall i, j | 0 <= i < j < |r| ensures Ordered(r[i], r[j]) { assert Ordered(l[i], l[j]); }
  }

  lemma ScanKeepsStamps(l: seq<Xfer>, now: TimeVal, backend: nat -> CancelAnswer, n: nat)
    requires Sorted(l) && Stamped(l, n)
    ensures Stamped(EarlyScan(l, now, backend), n)
  {
    EarlyScanIsFullScan(l, now, backend);
    var r := EarlyScan(l, now, backend);
    forall x | x in r ensures x.stamp <= n {
      var i :| 0 <= i < |r| && r[i] == x;
      assert l[i] in l && x.stamp == l[i].stamp;
    }
  }

  lemma StepKeepsSorted(l: seq<Xfer>, stamp: nat, s: Step)
    requires stamp > 0 && Sorted(l) && Stamped(l, stamp - 1)
    ensures Sorted(After(l, stamp, s)) && Stamped(After(l, stamp, s), stamp)
  {
    match s
    case Submit(x) => InsertKeepsSorted(l, x.(stamp := stamp));
    case Complete(k) => if k < |l| { RemoveStaysSorted(l, k); }
    case Scan(now, backend) =>
      EarlyScanStaysSorted(l, now, backend);
      ScanKeepsStamps(l, now, backend, stamp - 1);
    case UserCancel(k, answer) => if k < |l| { CancelStaysSorted(l, k, answer); }
    case Close(h) => KeepStaysSorted(l, x => !OfHandle(x, h));
    case Disconnect(h) => KeepStaysSorted(l, x => !Drains(x, h));
  }

  lemma {:induction false} RunStaysSorted(steps: seq<Step>)
    ensures Sorted(ListAfter(steps)) && Stamped(ListAfter(steps), |steps|)
  {
    if steps != [] {
      RunStaysSorted(steps[..|steps| - 1]);
      hide Sorted, Stamped, After;
      StepKeepsSorted(ListAfter(steps[..|steps| - 1]), |steps|, steps[|steps| - 1]);
    }
  }

  // After any run, the scan that stops early cancels exactly the expired transfers not yet handled,
  // and the first transfer not handled has the least timeout of all that wait.
  lemma ScanIsExactOverRuns(steps: seq<Step>, now: TimeVal, backend: nat -> CancelAnswer)
    ensures var l := ListAfter(steps);
            var r := EarlyScan(l, now, backend);
            && (forall i :: 0 <= i < |l| ==> r[i] == if Due(l[i], now) then HandleTimeout(l[i], backend) else l[i])
            && (FirstPending(l) == None ==> forall i: nat :: !Waiting(l, i))
            && (FirstPending(l).Some? ==> forall i: nat :: Waiting(l, i) ==> !Later(FirstPending(l).value, l[i].timeout))
  {
    RunStaysSorted(steps);
    EarlyScanIsFullScan(ListAfter(steps), now, backend);
    FirstPendingIsLeast(ListAfter(steps));
  }
}
