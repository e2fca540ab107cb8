// The kernel as an environment for UrbEngine: it lands the data of the URBs in the user's buffer
// and hands the URBs back, while the user cancels and the disconnect path may take the transfer
// away. The theorems at the end hold in every state of every such run.

module UrbKernel {
  import opened Wrappers
  import opened UrbEngine

  // ---------------------------------------------------------------- the kernel

  // What URB i will finally come back with. The environment fixes it; the run chooses the order.
  datatype Outcome = Outcome(status: UrbStatus, data: seq<Byte>)

  datatype Env = Env(layout: seq<Urb>, length: nat, submitted: nat, outs: seq<Outcome>, refusal: SubmitAnswer)

  ghost predicate EnvOk(e: Env)
  {
    && Tiles(e.layout, e.length)
    && 1 <= e.submitted <= |e.layout| == |e.outs|
    && (forall i :: 0 <= i < |e.outs| ==> |e.outs[i].data| <= e.layout[i].length)
    && (e.submitted < |e.layout| ==> !e.refusal.Accepted?)
  }

  // The kernel assumptions on the outcomes: after a stall or disconnect that left a hole no later
  // URB carries data, and only the last URB of the transfer overflows.
  ghost predicate KernelData(e: Env)
    requires |e.outs| == |e.layout|
  {
    && (forall i, j :: 0 <= i < j < |e.outs| && Halts(e.outs[i].status) && |e.outs[i].data| < e.layout[i].length
          ==> e.outs[j].data == [])
    && (forall i :: 0 <= i < |e.outs| && e.outs[i].status.Overflowed? ==> i == |e.outs| - 1)
  }

  // What the user is handed, and whether usbi_handle_disconnect rather than a reap handed it over.
  datatype Delivery = Delivery(report: Report, transferred: nat, bytes: seq<Byte>, byDisconnect: bool)

  // landed: URBs whose data the kernel has written; done: reaped and processed; dropped: reaped
  // after libusb let go of the transfer.
  datatype World = World(t: Transfer, landed: set<nat>, done: set<nat>, dropped: set<nat>, deliveries: seq<Delivery>)

  datatype Step =
    | Land(i: nat)
    | Reap(i: nat)
    | Cancel(isBulk: bool, answer: nat -> DiscardAnswer)
    | Disconnect

  // The reap-order assumptions: submission order while the transfer is NORMAL, and index order
  // among the URBs that carry data.
  ghost predicate ReapOrder(e: Env, w: World, i: nat)
    requires EnvOk(e) && i < e.submitted
  {
    && (w.t.Live() && w.t.action == Normal ==> forall j: nat :: j < i ==> j in w.done)
    && (e.outs[i].data != [] ==>
          forall j: nat {:trigger j in w.done} :: j < i && e.outs[j].data != [] ==> j in w.done || j in w.dropped)
  }

  ghost predicate Enabled(e: Env, w: World, s: Step)
    requires EnvOk(e)
  {
    match s
    case Land(i) => i < e.submitted && i !in w.landed
    case Reap(i) => i < e.submitted && i in w.landed && i !in w.done && i !in w.dropped && ReapOrder(e, w, i)
    case Cancel(_, _) => true
    case Disconnect => w.t.Live()
  }

  function Deliver(t: Transfer, r: Report, byDisconnect: bool): Delivery
    requires t.transferred <= |t.buffer|
  {
    Delivery(r, t.transferred, t.buffer[..t.transferred], byDisconnect)
  }

  ghost predicate Next(e: Env, w: World, s: Step, w': World)
    requires EnvOk(e)
  {
    && Enabled(e, w, s)
    && match s
       case Land(i) =>
         && e.layout[i].offset + |e.outs[i].data| <= |w.t.buffer|
         && w' == w.(landed := w.landed + {i}, t := w.t.(buffer := Overwrite(w.t.buffer, e.layout[i].offset, e.outs[i].data)))
       case Reap(i) =>
         if !w.t.Live() then w' == w.(dropped := w.dropped + {i})
         else
           && CanReap(w.t, i, |e.outs[i].data|)
           && var r := ReapStep(w.t, i, e.outs[i].status, |e.outs[i].data|);
              w' == w.(t := r.t, done := w.done + {i},
                       deliveries := w.deliveries + if r.report.Some? then [Deliver(r.t, r.report.value, false)] else [])
       case Cancel(isBulk, answer) => w' == w.(t := AfterCancel(w.t, isBulk, answer).0)
       case Disconnect =>
         && w.t.transferred <= |w.t.buffer|
         && w' == w.(t := w.t.(urbs := []), deliveries := w.deliveries + [Deliver(w.t, CompletionReport(NO_DEVICE), true)])
  }

  ghost predicate Init(e: Env, w: World)
    requires EnvOk(e)
  {
    exists q: Request, t: Transfer ::
      && t.transferred == 0 && |t.buffer| == q.length == e.length && e.layout == Layout(q)
      && w == World(AfterSubmit(t, q, e.submitted, e.refusal), {}, {}, {}, [])
  }

  // ---------------------------------------------------------------- the invariant

  // The data of the URBs in s, in index order: what the user's buffer must hold.
  function Gather(outs: seq<Outcome>, s: set<nat>, n: nat): seq<Byte>
    requires n <= |outs|
  {
    if n == 0 then []
    else Gather(outs, s, n - 1) + if n - 1 in s then outs[n - 1].data else []
  }

  ghost predicate Counting(e: Env, w: World)
    requires EnvOk(e)
  {
    && (w.t.Live() ==> |w.t.urbs| == |e.layout| && forall i :: 0 <= i < e.submitted ==> w.t.urbs[i] == e.layout[i])
    && w.t.numUrbs == |e.layout|
    && (forall i: nat :: i in w.landed ==> i < e.submitted)
    && w.done <= w.landed && w.dropped <= w.landed && w.done !! w.dropped
    && w.t.numRetired == |e.layout| - e.submitted + |w.done|
    && (w.t.Live() ==> w.t.numRetired < |e.layout| && w.dropped == {} && w.deliveries == [])
    && (!w.t.Live() ==> |w.deliveries| == 1)
    && (!w.t.Live() && !w.deliveries[0].byDisconnect ==> w.t.numRetired == |e.layout|)
  }

  ghost predicate NormalOrder(e: Env, w: World)
    requires EnvOk(e)
  {
    && (w.t.action == Normal ==> e.submitted == |e.layout|)
    && (w.t.Live() && w.t.action == Normal ==> forall j: nat :: j in w.done <==> j < |w.done|)
  }

  // Everything received so far is at the front of the buffer, in index order.
  ghost predicate Received(e: Env, w: World)
    requires EnvOk(e)
  {
    && |w.t.buffer| == e.length
    && w.t.transferred <= e.length
    && (w.t.Live() ==> w.t.buffer[..w.t.transferred] == Gather(e.outs, w.done, |e.outs|))
  }

  ghost predicate Pending(e: Env, w: World)
    requires EnvOk(e)
  {
    w.t.Live() ==>
      && (forall i: nat :: i < e.submitted ==> PendingClear(e, w, i))
      && (forall i: nat {:trigger LandedIntact(e, w, i)} :: i in w.landed && i !in w.done ==> LandedIntact(e, w, i))
  }

  // While NORMAL the next URB's slice starts where the received data ends, or no more data comes.
  ghost predicate InPlace(e: Env, w: World)
    requires EnvOk(e)
  {
    w.t.Live() && w.t.action == Normal && |w.done| < |e.layout| ==>
      w.t.transferred == e.layout[|w.done|].offset
      || forall j :: |w.done| <= j < |e.outs| ==> e.outs[j].data == []
  }

  ghost predicate Handed(e: Env, w: World)
    requires EnvOk(e)
  {
    forall d :: d in w.deliveries ==>
      && d.transferred == |d.bytes| <= e.length
      && d.bytes == Gather(e.outs, w.done, |e.outs|)
      && (d.byDisconnect ==> d.report == CompletionReport(NO_DEVICE))
  }

  // A URB that is still to bring data lies above everything received so far.
  ghost predicate PendingClear(e: Env, w: World, i: nat)
    requires EnvOk(e) && i < e.submitted
  {
    i !in w.done && e.outs[i].data != [] ==>
      && w.t.transferred <= e.layout[i].offset
      && forall j: nat :: i < j < |e.outs| && j in w.done ==> e.outs[j].data == []
  }

  // What the kernel wrote for a URB is still in its slice of the buffer.
  ghost predicate LandedIntact(e: Env, w: World, i: nat)
    requires EnvOk(e)
  {
    i < |e.layout| && e.layout[i].offset + |e.outs[i].data| <= |w.t.buffer|
    && w.t.buffer[e.layout[i].offset..e.layout[i].offset + |e.outs[i].data|] == e.outs[i].data
  }

  ghost predicate FailureKept(e: Env, w: World)
    requires EnvOk(e)
  {
    e.submitted < |e.layout| && !e.refusal.RemoteIoError? ==>
      && (w.t.Live() ==> w.t.action == SubmitFailed || w.t.action == Cancelled)
      && (w.deliveries != [] ==> w.deliveries[0].report != CompletionReport(COMPLETED))
  }

  // With EREMOTEIO for a refusal the transfer counts as completed early from the start, and nothing
  // its URBs come back with can change its status.
  ghost predicate ShortRefusalKept(e: Env, w: World)
    requires EnvOk(e)
  {
    e.submitted < |e.layout| && e.refusal.RemoteIoError? ==>
      && (w.t.Live() ==> (w.t.action == CompletedEarly || w.t.action == Cancelled) && w.t.status == COMPLETED)
      && forall d :: d in w.deliveries && !d.byDisconnect ==>
           d.report == CancellationReport || d.report == CompletionReport(COMPLETED)
  }

  ghost predicate FullOk(e: Env, j: nat)
    requires EnvOk(e) && j < |e.outs|
  {
    Benign(e.outs[j].status) && |e.outs[j].data| == e.layout[j].length
  }

  // URB m ended the transfer well: everything before it came back full and without error.
  ghost predicate EndsWell(e: Env, m: nat)
    requires EnvOk(e)
  {
    && m < |e.outs|
    && Benign(e.outs[m].status)
    && (m == |e.outs| - 1 || |e.outs[m].data| < e.layout[m].length)
    && forall j: nat :: j < m ==> FullOk(e, j)
  }

  ghost predicate Truthful(e: Env, w: World)
    requires EnvOk(e)
  {
    && (w.t.Live() && w.t.status == COMPLETED && w.t.action == Normal ==>
          forall j: nat :: j < |w.done| && j < |e.outs| ==> FullOk(e, j))
    && (w.t.Live() && w.t.status == COMPLETED && w.t.action == CompletedEarly && e.submitted == |e.layout| ==>
          exists m: nat :: EndsWell(e, m) && m in w.done)
    && (w.t.Live() && w.t.action == Errored ==> w.t.status != COMPLETED)
    && (forall d :: d in w.deliveries && d.report == CompletionReport(COMPLETED) && e.submitted == |e.layout| ==>
          exists m: nat :: EndsWell(e, m) && m in w.done)
    && (forall d :: d in w.deliveries && d.report == CancellationReport ==> w.t.action == Cancelled)
    && (forall d :: d in w.deliveries && w.t.action == Cancelled ==>
          d.report == CancellationReport || d.byDisconnect)
  }

  // The status that reaping in order from URB i on ends with, when it is st before.
  function StatusFrom(e: Env, i: nat, st: TransferStatus): TransferStatus
    requires |e.outs| == |e.layout| && i <= |e.outs|
    decreases |e.outs| - i
  {
    if i == |e.outs| then st
    else
      match e.outs[i].status
      case DeviceGone => StatusFrom(e, i + 1, NO_DEVICE)
      case Stalled => StatusFrom(e, i + 1, if st == COMPLETED then STALL else st)
      case Overflowed => if st == COMPLETED then OVERFLOW else st
      case LowLevel => if st == COMPLETED then ERROR else st
      case Unrecognised(_) => if st == COMPLETED then ERROR else st
      case _ => if |e.outs[i].data| < e.layout[i].length then st else StatusFrom(e, i + 1, st)
  }

  function FinalStatus(e: Env): TransferStatus
    requires |e.outs| == |e.layout|
  {
    if e.submitted == |e.layout| then StatusFrom(e, 0, COMPLETED)
    else if e.refusal.RemoteIoError? then COMPLETED else ERROR
  }

  // While NORMAL what has been reaped leaves the end to the rest; from then on it is decided.
  ghost predicate StatusDecided(e: Env, w: World)
    requires EnvOk(e)
  {
    && (w.t.Live() && w.t.action == Normal && |w.done| <= |e.outs| ==> StatusFrom(e, |w.done|, w.t.status) == FinalStatus(e))
    && (w.t.Live() && w.t.action == SubmitFailed ==> w.t.status == COMPLETED && FinalStatus(e) == ERROR)
    && (w.t.Live() && (w.t.action == CompletedEarly || w.t.action == Errored) ==> w.t.status == FinalStatus(e))
    && (w.t.Live() && w.t.action == Errored ==> FinalStatus(e) != COMPLETED)
    && (forall d :: d in w.deliveries && !d.byDisconnect && w.t.action != Cancelled ==> d.report == CompletionReport(FinalStatus(e)))
  }

  ghost predicate Inv(e: Env, w: World)
    requires EnvOk(e)
  {
    && Counting(e, w) && NormalOrder(e, w) && Received(e, w) && Pending(e, w) && InPlace(e, w) && Handed(e, w)
    && FailureKept(e, w) && ShortRefusalKept(e, w) && Truthful(e, w)
    && StatusDecided(e, w)
  }

  // ---------------------------------------------------------------- preservation

  lemma {:induction false} GatherAdd(outs: seq<Outcome>, s: set<nat>, i: nat, n: nat)
    requires i < n <= |outs| && i !in s
    requires outs[i].data != [] ==> forall j :: i < j < n && j in s ==> outs[j].data == []
    ensures Gather(outs, s + {i}, n) == Gather(outs, s, n) + outs[i].data
  {
    if n - 1 == i {
      GatherSame(outs, s, s + {i}, n - 1);
    } else {
      GatherAdd(outs, s, i, n - 1);
      assert n - 1 in s + {i} <==> n - 1 in s;
      var d := if n - 1 in s then outs[n - 1].data else [];
      assert d == [] || outs[i].data == [];
      assert Gather(outs, s, n - 1) + outs[i].data + d == Gather(outs, s, n - 1) + d + outs[i].data;
    }
  }

  lemma {:induction false} GatherSame(outs: seq<Outcome>, s: set<nat>, s': set<nat>, n: nat)
    requires n <= |outs|
    requires forall j: nat :: j < n ==> (j in s <==> j in s')
    ensures Gather(outs, s, n) == Gather(outs, s', n)
  {
    if n > 0 { GatherSame(outs, s, s', n - 1); }
  }

  lemma {:induction false} GatherEmpty(outs: seq<Outcome>, n: nat)
    requires n <= |outs|
    ensures Gather(outs, {}, n) == []
  {
    if n > 0 { GatherEmpty(outs, n - 1); }
  }

  // A set of naturals below n that has n members is all of them.
  lemma {:induction false} FullSet(s: set<nat>, n: nat)
    requires forall i: nat :: i in s ==> i < n
    ensures |s| <= n
    ensures |s| == n ==> forall i: nat :: i < n ==> i in s
  {
    if n > 0 {
      FullSet(s - {n - 1}, n - 1);
      if n - 1 in s { assert |s| == |s - {n - 1}| + 1; } else { assert s - {n - 1} == s; }
    }
  }

  lemma UrbSpace(e: Env, i: nat, j: nat)
    requires EnvOk(e) && i < j < |e.layout|
    ensures e.layout[i].offset + |e.outs[i].data| <= e.layout[i].offset + e.layout[i].length <= e.layout[j].offset
    ensures e.layout[j].offset + |e.outs[j].data| <= e.length
  {
    OffsetsGrow(e.layout, e.length, i, j);
  }

  // No reap the kernel may make ever touches memory outside the user's buffer.
  lemma ReapStaysInside(e: Env, w: World, i: nat)
    requires EnvOk(e) && Inv(e, w) && Enabled(e, w, Reap(i))
    ensures CanReap(w.t, i, |e.outs[i].data|)
  {
    OffsetsGrow(e.layout, e.length, i, i);
    assert w.t.Live() ==> PendingClear(e, w, i);
  }

  lemma LandStaysInside(e: Env, w: World, i: nat)
    requires EnvOk(e) && Inv(e, w) && Enabled(e, w, Land(i))
    ensures e.layout[i].offset + |e.outs[i].data| <= |w.t.buffer|
  {
    OffsetsGrow(e.layout, e.length, i, i);
  }

  lemma InitHolds(e: Env, w: World)
    requires EnvOk(e) && Init(e, w)
    ensures Inv(e, w)
  {
    GatherEmpty(e.outs, |e.outs|);
    forall i: nat | i < e.submitted ensures PendingClear(e, w, i) {}
  }

  lemma CancelKeeps(e: Env, w: World, isBulk: bool, answer: nat -> DiscardAnswer, w': World)
    requires EnvOk(e) && Inv(e, w) && Next(e, w, Cancel(isBulk, answer), w')
    ensures Inv(e, w')
  {
    if w'.t.Live() {
      forall i: nat | i < e.submitted ensures PendingClear(e, w', i) {
        assert PendingClear(e, w, i);
      }
      forall i: nat | i in w'.landed && i !in w'.done ensures LandedIntact(e, w', i) {
        assert LandedIntact(e, w, i);
      }
    }
  }

  lemma DisconnectKeeps(e: Env, w: World, w': World)
    requires EnvOk(e) && Inv(e, w) && Next(e, w, Disconnect, w')
    ensures Inv(e, w')
  {
  }

  lemma WriteFacts(b: seq<Byte>, at: nat, d: seq<Byte>)
    requires at + |d| <= |b|
    ensures Overwrite(b, at, d)[at..at + |d|] == d
    ensures forall lo: nat, hi: nat {:trigger b[lo..hi]} ::
              lo <= hi <= |b| && (hi <= at || at + |d| <= lo || d == []) ==> Overwrite(b, at, d)[lo..hi] == b[lo..hi]
  {
    var m := Overwrite(b, at, d);
    forall lo: nat, hi: nat {:trigger b[lo..hi]} | lo <= hi <= |b| && (hi <= at || at + |d| <= lo || d == [])
      ensures m[lo..hi] == b[lo..hi]
    {
      assert forall k :: lo <= k < hi ==> m[k] == b[k];
    }
  }

  lemma LandKeeps(e: Env, w: World, i: nat, w': World)
    requires EnvOk(e) && Inv(e, w) && Next(e, w, Land(i), w')
    ensures Inv(e, w')
  {
    if w.t.Live() {
      var b, d, at, n := w.t.buffer, e.outs[i].data, e.layout[i].offset, w.t.transferred;
      WriteFacts(b, at, d);
      assert PendingClear(e, w, i);
      assert b[0..n] == b[..n];
      forall j: nat | j < e.submitted ensures PendingClear(e, w', j) {
        assert PendingClear(e, w, j);
      }
      forall j: nat | j in w'.landed && j !in w'.done ensures LandedIntact(e, w', j) {
        if j != i {
          assert LandedIntact(e, w, j);
          if j < i { UrbSpace(e, j, i); } else { UrbSpace(e, i, j); }
        }
      }
    }
  }

  // URB i of a live transfer is reaped, with result r.
  ghost predicate LiveReap(e: Env, w: World, i: nat, r: StepResult, w': World)
    requires EnvOk(e)
  {
    && Enabled(e, w, Reap(i))
    && w.t.Live()
    && |w.t.urbs| == |e.layout|
    && CanReap(w.t, i, |e.outs[i].data|)
    && r.t.transferred <= |r.t.buffer|
    && ReapEffect(w.t, i, e.outs[i].status, |e.outs[i].data|, r)
    && w' == w.(t := r.t, done := w.done + {i},
                deliveries := w.deliveries + if r.report.Some? then [Deliver(r.t, r.report.value, false)] else [])
  }

  lemma LiveReapIsNext(e: Env, w: World, i: nat, w': World) returns (r: StepResult)
    requires EnvOk(e) && Inv(e, w) && Next(e, w, Reap(i), w') && w.t.Live()
    ensures LiveReap(e, w, i, r, w')
  {
    r := ReapStep(w.t, i, e.outs[i].status, |e.outs[i].data|);
    ReapHasEffect(w.t, i, e.outs[i].status, |e.outs[i].data|);
  }

  // While NORMAL the reaped URB is the next one, and its data already sits where it belongs.
  lemma NormalNext(e: Env, w: World, i: nat)
    requires EnvOk(e) && NormalOrder(e, w) && InPlace(e, w)
    requires Enabled(e, w, Reap(i)) && w.t.Live() && w.t.action == Normal
    ensures i == |w.done| && (e.outs[i].data == [] || w.t.transferred == e.layout[i].offset)
  {
    var m := |w.done|;
    assert i in w.done <==> i < m;
    assert m in w.done <==> m < m;
  }

  lemma ReapKeepsCounting(e: Env, w: World, i: nat, r: StepResult, w': World)
    requires EnvOk(e) && KernelData(e) && Counting(e, w) && NormalOrder(e, w) && InPlace(e, w)
    requires LiveReap(e, w, i, r, w')
    ensures Counting(e, w')
  {
    assert |w'.done| == |w.done| + 1;
    FullSet(w'.done, e.submitted);
    if w.t.action == Normal { NormalNext(e, w, i); }
    hide Benign, Halts, NormalEffect, SurplusEffect, Gather, FailureStatus;
  }

  lemma NextInPrefix(s: set<nat>, i: nat)
    requires i == |s| && forall j: nat :: j in s <==> j < |s|
    ensures forall j: nat :: j in s + {i} <==> j < |s + {i}|
  {
    assert |s + {i}| == |s| + 1;
  }

  lemma ReapKeepsOrder(e: Env, w: World, i: nat, r: StepResult, w': World)
    requires EnvOk(e) && NormalOrder(e, w) && InPlace(e, w) && LiveReap(e, w, i, r, w')
    ensures NormalOrder(e, w')
  {
    if w.t.action == Normal {
      NormalNext(e, w, i);
      NextInPrefix(w.done, i);
    }
    hide Gather, Move, InPlace, Enabled, SurplusEffect;
  }

  lemma ReapKeepsReceived(e: Env, w: World, i: nat, r: StepResult, w': World)
    requires EnvOk(e) && Received(e, w) && Pending(e, w) && NormalOrder(e, w) && InPlace(e, w)
    requires Counting(e, w) && LiveReap(e, w, i, r, w')
    ensures |w'.t.buffer| == e.length && w'.t.transferred <= e.length
    ensures w'.t.buffer[..w'.t.transferred] == Gather(e.outs, w'.done, |e.outs|)
  {
    hide NormalEffect, SurplusEffect, Move;
    assert LandedIntact(e, w, i) && PendingClear(e, w, i);
    GatherAdd(e.outs, w.done, i, |e.outs|);
    if w.t.action == Normal { NormalNext(e, w, i); }
    PrefixGrows(w.t.buffer, w'.t.buffer, e.outs[i].data, e.layout[i].offset, w.t.transferred, w.t.action == Normal);
  }

  lemma PrefixGrows(b: seq<Byte>, b': seq<Byte>, d: seq<Byte>, at: nat, n: nat, inPlace: bool)
    requires at + |d| <= |b| && n + |d| <= |b| && b[at..at + |d|] == d
    requires if inPlace then b' == b && (d == [] || n == at) else b' == Move(b, at, n, |d|)
    ensures |b'| == |b| && b'[..n + |d|] == b[..n] + d
  {
    MoveFacts(b, at, n, |d|);
    assert inPlace && d != [] ==> b[..n + |d|] == b[..n] + b[n..n + |d|];
  }

  lemma ReapKeepsHanded(e: Env, w: World, i: nat, r: StepResult, w': World)
    requires EnvOk(e) && Counting(e, w) && LiveReap(e, w, i, r, w')
    requires w'.t.transferred <= |w'.t.buffer| == e.length
    requires w'.t.buffer[..w'.t.transferred] == Gather(e.outs, w'.done, |e.outs|)
    ensures Handed(e, w')
  {
    hide ReapEffect, Gather;
    forall d | d in w'.deliveries ensures d == Deliver(r.t, r.report.value, false) {}
  }

  lemma DataReapedInOrder(e: Env, w: World, i: nat, j: nat)
    requires EnvOk(e) && Enabled(e, w, Reap(i)) && w.dropped == {}
    requires j < e.submitted && j !in w.done + {i} && e.outs[i].data != [] && e.outs[j].data != []
    ensures i < j
  {
    assert j !in w.done;
  }

  lemma ReapKeepsPending(e: Env, w: World, i: nat, r: StepResult, w': World, j: nat)
    requires EnvOk(e) && Counting(e, w) && Pending(e, w) && LiveReap(e, w, i, r, w')
    requires j < e.submitted
    ensures PendingClear(e, w', j)
  {
    hide NormalEffect, SurplusEffect, Move;
    assert PendingClear(e, w, i) && PendingClear(e, w, j);
    if e.outs[i].data != [] && e.outs[j].data != [] && j !in w'.done {
      DataReapedInOrder(e, w, i, j);
      UrbSpace(e, i, j);
    }
  }

  // The memmove that closes a hole overwrites nothing that is still to be reaped.
  lemma ReapKeepsLanded(e: Env, w: World, i: nat, r: StepResult, w': World, j: nat)
    requires EnvOk(e) && Counting(e, w) && Pending(e, w) && LiveReap(e, w, i, r, w')
    requires j in w.landed && j !in w'.done
    ensures LandedIntact(e, w', j)
  {
    hide NormalEffect, SurplusEffect, Move;
    var b, d, n := w.t.buffer, e.outs[i].data, w.t.transferred;
    assert PendingClear(e, w, i);
    assert LandedIntact(e, w, j);
    MoveFacts(b, e.layout[i].offset, n, |d|);
    if d != [] && e.outs[j].data != [] {
      DataReapedInOrder(e, w, i, j);
      UrbSpace(e, i, j);
    }
  }

  lemma ReapKeepsPlace(e: Env, w: World, i: nat, r: StepResult, w': World)
    requires EnvOk(e) && KernelData(e) && Counting(e, w) && NormalOrder(e, w) && InPlace(e, w) && LiveReap(e, w, i, r, w')
    ensures InPlace(e, w')
  {
    if w'.t.Live() && w'.t.action == Normal && |w'.done| < |e.layout| {
      assert w.t.action == Normal;
      NormalNext(e, w, i);
      assert |w'.done| == i + 1;
      assert e.layout[i + 1].offset == e.layout[i].offset + e.layout[i].length;
    }
  }

  lemma ReapKeepsFailure(e: Env, w: World, i: nat, r: StepResult, w': World)
    requires EnvOk(e) && Counting(e, w) && NormalOrder(e, w) && FailureKept(e, w) && LiveReap(e, w, i, r, w')
    ensures FailureKept(e, w')
  {
    hide NormalEffect, Gather, Move;
    forall d | d in w'.deliveries ensures d == Deliver(r.t, r.report.value, false) {}
  }

  lemma ReapKeepsShortRefusal(e: Env, w: World, i: nat, r: StepResult, w': World)
    requires EnvOk(e) && Counting(e, w) && NormalOrder(e, w) && ShortRefusalKept(e, w) && LiveReap(e, w, i, r, w')
    ensures ShortRefusalKept(e, w')
  {
    hide NormalEffect, Gather, Move;
    forall d | d in w'.deliveries ensures d == Deliver(r.t, r.report.value, false) {}
  }

  lemma NormalKeepsTruth(e: Env, w: World, i: nat, r: StepResult, w': World)
    requires EnvOk(e) && Counting(e, w) && NormalOrder(e, w) && InPlace(e, w) && Truthful(e, w)
    requires LiveReap(e, w, i, r, w') && w.t.action == Normal
    ensures Truthful(e, w')
  {
    hide Move, Gather, SurplusEffect, FailureStatus;
    forall d | d in w'.deliveries ensures r.report == Some(d.report) {}
    NormalNext(e, w, i);
    assert |w'.done| == i + 1;
    if Benign(e.outs[i].status) && w.t.status == COMPLETED {
      if i == |e.outs| - 1 || |e.outs[i].data| < e.layout[i].length {
        assert EndsWell(e, i) && i in w'.done;
      } else {
        assert FullOk(e, i);
      }
    }
  }

  lemma SurplusKeepsTruth(e: Env, w: World, i: nat, r: StepResult, w': World)
    requires EnvOk(e) && Counting(e, w) && Truthful(e, w) && LiveReap(e, w, i, r, w') && w.t.action != Normal
    ensures Truthful(e, w')
  {
    hide Move, Gather, NormalEffect;
    forall d | d in w'.deliveries ensures r.report == Some(d.report) {}
    if w.t.action == CompletedEarly && w.t.status == COMPLETED && e.submitted == |e.layout| {
      var m: nat :| EndsWell(e, m) && m in w.done;
      assert m in w'.done;
    }
  }

  lemma NormalDecides(e: Env, w: World, i: nat, r: StepResult, w': World)
    requires EnvOk(e) && KernelData(e) && Counting(e, w) && NormalOrder(e, w) && InPlace(e, w) && StatusDecided(e, w)
    requires LiveReap(e, w, i, r, w') && w.t.action == Normal
    ensures StatusDecided(e, w')
  {
    hide Move, Gather, SurplusEffect;
    forall d | d in w'.deliveries ensures r.report == Some(d.report) && !d.byDisconnect {}
    NormalNext(e, w, i);
    assert |w'.done| == i + 1;
    NormalStatus(e, w.t, i, r);
  }

  // The status after one reap in order, and whether it is the last word.
  lemma NormalStatus(e: Env, t: Transfer, i: nat, r: StepResult)
    requires EnvOk(e) && KernelData(e) && i < |e.outs| && t.urbs == e.layout && t.numUrbs == |e.layout|
    requires CanReap(t, i, |e.outs[i].data|) && ReapEffect(t, i, e.outs[i].status, |e.outs[i].data|, r)
    requires t.action == Normal && t.numRetired == i
    ensures StatusFrom(e, i, t.status) == if r.t.action == Normal && r.report == None then StatusFrom(e, i + 1, r.t.status) else r.t.status
  {
  }

  lemma SurplusDecides(e: Env, w: World, i: nat, r: StepResult, w': World)
    requires EnvOk(e) && Counting(e, w) && NormalOrder(e, w) && FailureKept(e, w) && ShortRefusalKept(e, w) && StatusDecided(e, w)
    requires LiveReap(e, w, i, r, w') && w.t.action != Normal
    ensures StatusDecided(e, w')
  {
    hide Move, Gather, NormalEffect, StatusFrom;
    forall d | d in w'.deliveries ensures r.report == Some(d.report) && !d.byDisconnect {}
  }

  lemma ReapKeeps(e: Env, w: World, i: nat, w': World)
    requires EnvOk(e) && KernelData(e) && Inv(e, w) && Next(e, w, Reap(i), w')
    ensures Inv(e, w')
  {
    if w.t.Live() {
      var r := LiveReapIsNext(e, w, i, w');
      LiveReapKeeps(e, w, i, r, w');
    }
  }

  lemma LiveReapKeeps(e: Env, w: World, i: nat, r: StepResult, w': World)
    requires EnvOk(e) && KernelData(e) && Inv(e, w) && LiveReap(e, w, i, r, w')
    ensures Inv(e, w')
  {
    hide LiveReap, Counting, NormalOrder, Truthful, StatusDecided, FailureKept, ShortRefusalKept, InPlace, Handed, Gather, LandedIntact, PendingClear;
    ReapKeepsCounting(e, w, i, r, w');
    ReapKeepsOrder(e, w, i, r, w');
    ReapKeepsReceived(e, w, i, r, w');
    ReapKeepsHanded(e, w, i, r, w');
    ReapKeepsPlace(e, w, i, r, w');
    ReapKeepsFailure(e, w, i, r, w');
    ReapKeepsShortRefusal(e, w, i, r, w');
    if w.t.action == Normal {
      NormalKeepsTruth(e, w, i, r, w');
      NormalDecides(e, w, i, r, w');
    } else {
      SurplusKeepsTruth(e, w, i, r, w');
      SurplusDecides(e, w, i, r, w');
    }
    forall j: nat | j < e.submitted ensures PendingClear(e, w', j) {
      ReapKeepsPending(e, w, i, r, w', j);
    }
    forall j: nat | j in w'.landed && j !in w'.done ensures LandedIntact(e, w', j) {
      assert j in w.landed by { LandedSame(e, w, i, r, w'); }
      ReapKeepsLanded(e, w, i, r, w', j);
    }
  }

  lemma LandedSame(e: Env, w: World, i: nat, r: StepResult, w': World)
    requires EnvOk(e) && LiveReap(e, w, i, r, w')
    ensures w'.landed == w.landed
  {
  }

  lemma NextKeeps(e: Env, w: World, s: Step, w': World)
    requires EnvOk(e) && KernelData(e) && Inv(e, w) && Next(e, w, s, w')
    ensures Inv(e, w')
  {
    match s
    case Land(i) => LandKeeps(e, w, i, w');
    case Reap(i) => ReapKeeps(e, w, i, w');
    case Cancel(isBulk, answer) => CancelKeeps(e, w, isBulk, answer, w');
    case Disconnect => DisconnectKeeps(e, w, w');
  }

  // ---------------------------------------------------------------- runs

  ghost predicate Run(e: Env, ws: seq<World>, steps: seq<Step>)
    requires EnvOk(e)
  {
    && |ws| == |steps| + 1
    && Init(e, ws[0])
    && forall k :: 0 <= k < |steps| ==> Next(e, ws[k], steps[k], ws[k + 1])
  }

  lemma {:induction false} RunKeeps(e: Env, ws: seq<World>, steps: seq<Step>, k: nat)
    requires EnvOk(e) && KernelData(e) && Run(e, ws, steps) && k < |ws|
    ensures Inv(e, ws[k])
  {
    hide Next, Init, Inv, EnvOk, KernelData;
    if k == 0 {
      InitHolds(e, ws[0]);
    } else {
      RunKeeps(e, ws, steps, k - 1);
      NextKeeps(e, ws[k - 1], steps[k - 1], ws[k]);
    }
  }

  function DataLength(outs: seq<Outcome>, s: set<nat>, n: nat): nat
    requires n <= |outs|
  {
    if n == 0 then 0 else DataLength(outs, s, n - 1) + if n - 1 in s then |outs[n - 1].data| else 0
  }

  lemma {:induction false} GatherLength(outs: seq<Outcome>, s: set<nat>, n: nat)
    requires n <= |outs|
    ensures |Gather(outs, s, n)| == DataLength(outs, s, n)
  {
    if n > 0 { GatherLength(outs, s, n - 1); }
  }

  // Data conservation: in every run, what the user is handed is exactly the data of the URBs that
  // were reaped before the report, in index order, with no hole, and never more than was asked for.
  lemma BulkDataConserved(e: Env, ws: seq<World>, steps: seq<Step>, k: nat)
    requires EnvOk(e) && KernelData(e) && Run(e, ws, steps) && k < |ws|
    ensures var w := ws[k];
      forall d :: d in w.deliveries ==>
        && d.transferred == DataLength(e.outs, w.done, |e.outs|) <= e.length
        && d.bytes == Gather(e.outs, w.done, |e.outs|)
  {
    RunKeeps(e, ws, steps, k);
    GatherLength(e.outs, ws[k].done, |e.outs|);
  }

  // Exactly one completion: never two; none before every submitted URB is back, unless the
  // disconnect path took the transfer; and once every URB is back, one has been made.
  lemma ExactlyOneCompletion(e: Env, ws: seq<World>, steps: seq<Step>, k: nat)
    requires EnvOk(e) && KernelData(e) && Run(e, ws, steps) && k < |ws|
    ensures var w := ws[k];
      && |w.deliveries| <= 1
      && w.t.numRetired == |e.layout| - e.submitted + |w.done|
      && (w.deliveries != [] && !w.deliveries[0].byDisconnect ==>
            forall i: nat :: i < e.submitted ==> i in w.done)
      && ((forall i: nat :: i < e.submitted ==> i in w.done || i in w.dropped) ==> |w.deliveries| == 1)
  {
    RunKeeps(e, ws, steps, k);
    var w := ws[k];
    FullSet(w.done, e.submitted);
    if w.t.Live() && forall i: nat :: i < e.submitted ==> i in w.done || i in w.dropped {
      Below(w.done, e.submitted);
      assert false;
    }
  }

  lemma {:induction false} Below(s: set<nat>, n: nat)
    requires forall i: nat :: i < n ==> i in s
    ensures |s| >= n
  {
    if n > 0 {
      Below(s - {n - 1}, n - 1);
      assert |s - {n - 1}| == |s| - 1;
    }
  }

  // A transfer of which only some URBs could be submitted is never reported as completed, unless the
  // kernel refused the next one with EREMOTEIO.
  lemma PartialSubmitNeverCompletes(e: Env, ws: seq<World>, steps: seq<Step>, k: nat)
    requires EnvOk(e) && KernelData(e) && Run(e, ws, steps) && k < |ws|
    requires e.submitted < |e.layout| && !e.refusal.RemoteIoError?
    ensures forall d :: d in ws[k].deliveries ==> d.report != CompletionReport(COMPLETED)
  {
    RunKeeps(e, ws, steps, k);
  }

  // With EREMOTEIO it is the other way round: whatever its URBs come back with, a report that no
  // cancel and no disconnect has caused says COMPLETED.
  lemma ShortRefusalAlwaysCompletes(e: Env, ws: seq<World>, steps: seq<Step>, k: nat)
    requires EnvOk(e) && KernelData(e) && Run(e, ws, steps) && k < |ws|
    requires e.submitted < |e.layout| && e.refusal.RemoteIoError?
    ensures forall d :: d in ws[k].deliveries && !d.byDisconnect && d.report != CancellationReport ==>
              d.report == CompletionReport(COMPLETED)
  {
    RunKeeps(e, ws, steps, k);
  }

  // The first of the submitted URBs from j on that did not come back full and without error.
  ghost function FirstNotFull(e: Env, j: nat): (r: nat)
    requires EnvOk(e) && j <= e.submitted
    ensures j <= r <= e.submitted && (r < e.submitted ==> !FullOk(e, r))
    ensures forall i: nat :: j <= i < r ==> FullOk(e, i)
    decreases e.submitted - j
  {
    if j == e.submitted || !FullOk(e, j) then j else FirstNotFull(e, j + 1)
  }

  // The data ended inside the part that was submitted: a URB came back short without error, and
  // everything before it full.
  ghost predicate EndsInside(e: Env)
    requires EnvOk(e)
  {
    var j := FirstNotFull(e, 0);
    j < e.submitted && Benign(e.outs[j].status)
  }

  // COMPLETED is truthful if some reaped URB ended the transfer and everything before it came back
  // full and without error. For every COMPLETED in every run that is so exactly if all URBs were
  // submitted, or the data ended inside those that were. A report of cancellation is made exactly
  // when a cancel has set the action to CANCELLED and the disconnect path did not come first.
  lemma ReportsAreTruthful(e: Env, ws: seq<World>, steps: seq<Step>, k: nat)
    requires EnvOk(e) && KernelData(e) && Run(e, ws, steps) && k < |ws|
    ensures forall d :: d in ws[k].deliveries ==>
      && (d.report == CompletionReport(COMPLETED) ==>
            ((exists m: nat :: EndsWell(e, m) && m in ws[k].done) <==> e.submitted == |e.layout| || EndsInside(e)))
      && (!d.byDisconnect ==>
            (d.report == CancellationReport <==> ws[k].t.action == Cancelled))
  {
    RunKeeps(e, ws, steps, k);
    ExactlyOneCompletion(e, ws, steps, k);
    var w := ws[k];
    hide Run, KernelData, NormalOrder, Received, Pending, InPlace, FailureKept, Gather, DataLength;
    assert forall d :: d in w.deliveries && d.report == CompletionReport(COMPLETED) ==> !d.byDisconnect;
    forall d | d in w.deliveries && d.report == CompletionReport(COMPLETED) && e.submitted < |e.layout|
      ensures (exists m: nat :: EndsWell(e, m) && m in w.done) <==> EndsInside(e)
    {
      EndsWellIffInside(e, w);
    }
  }

  lemma EndsWellIffInside(e: Env, w: World)
    requires EnvOk(e) && e.submitted < |e.layout|
    requires forall i: nat :: i in w.done <==> i < e.submitted
    ensures (exists m: nat :: EndsWell(e, m) && m in w.done) <==> EndsInside(e)
  {
    var j := FirstNotFull(e, 0);
    forall m: nat | EndsWell(e, m) && m in w.done ensures m == j && EndsInside(e) {
      assert !FullOk(e, m);
    }
    if EndsInside(e) {
      assert EndsWell(e, j) && j in w.done;
    }
  }

  // A run of every such transfer whose one submitted URB fails without data: it is reported as
  // completed, with nothing in it.
  lemma ShortRefusalMisreports(e: Env, q: Request, t: Transfer) returns (ws: seq<World>, steps: seq<Step>)
    requires EnvOk(e) && KernelData(e) && e.layout == Layout(q) && e.length == q.length == |t.buffer| && t.transferred == 0
    requires e.submitted == 1 < |e.layout| && e.refusal.RemoteIoError?
    requires !Benign(e.outs[0].status) && e.outs[0].data == []
    ensures Run(e, ws, steps) && !EndsInside(e)
    ensures ws[|steps|].deliveries == [Delivery(CompletionReport(COMPLETED), 0, [], false)]
  {
    var w0 := World(AfterSubmit(t, q, 1, e.refusal), {}, {}, {}, []);
    assert Init(e, w0);
    InitHolds(e, w0);
    LandStaysInside(e, w0, 0);
    var w1 := w0.(landed := {0}, t := w0.t.(buffer := Overwrite(w0.t.buffer, e.layout[0].offset, [])));
    assert Next(e, w0, Land(0), w1);
    var r := ReapStep(w1.t, 0, e.outs[0].status, 0);
    var w2 := w1.(t := r.t, done := {0}, deliveries := [Delivery(CompletionReport(COMPLETED), 0, [], false)]);
    assert Next(e, w1, Reap(0), w2);
    assert !FullOk(e, 0);
    ws, steps := [w0, w1, w2], [Land(0), Reap(0)];
  }

  // ---------------------------------------------------------------- the report, to the letter

  // A device that is gone is met behind URB j, before anything else ends the transfer.
  ghost predicate GoneBehind(e: Env, j: nat, k: nat)
    requires EnvOk(e)
  {
    && j < k < |e.outs| && e.outs[k].status.DeviceGone?
    && forall i: nat :: j < i < k ==> FullOk(e, i) || e.outs[i].status.Stalled?
  }

  // What the URBs say: the first of them that did not come back full and without error decides. If there
  // is none, or it is only short, the transfer has completed. A stall is outdone by a device that is gone.
  ghost function StatusOf(e: Env): TransferStatus
    requires EnvOk(e) && e.submitted == |e.layout|
  {
    var j := FirstNotFull(e, 0);
    if j == |e.outs| then COMPLETED
    else
      match e.outs[j].status
      case Success => COMPLETED
      case RemoteIo => COMPLETED
      case Unlinked => COMPLETED
      case DeviceGone => NO_DEVICE
      case Stalled => if exists k: nat :: GoneBehind(e, j, k) then NO_DEVICE else STALL
      case Overflowed => OVERFLOW
      case LowLevel => ERROR
      case Unrecognised(_) => ERROR
  }

  lemma {:induction false} GoneStays(e: Env, i: nat)
    requires EnvOk(e) && i <= |e.outs|
    ensures StatusFrom(e, i, NO_DEVICE) == NO_DEVICE
    decreases |e.outs| - i
  {
    if i < |e.outs| { GoneStays(e, i + 1); }
  }

  lemma NoneBehind(e: Env, j: nat, i: nat)
    requires EnvOk(e) && j < i < |e.outs| && !FullOk(e, i) && !e.outs[i].status.Stalled? && !e.outs[i].status.DeviceGone?
    requires forall m: nat :: j < m < i ==> FullOk(e, m) || e.outs[m].status.Stalled?
    ensures forall k: nat :: !GoneBehind(e, j, k)
  {
    hide EnvOk;
    forall k: nat ensures !GoneBehind(e, j, k) {
      if j < k < i { assert FullOk(e, k) || e.outs[k].status.Stalled?; }
    }
  }

  lemma {:induction false} StallStays(e: Env, j: nat, i: nat)
    requires EnvOk(e) && j < i <= |e.outs| && forall m: nat :: j < m < i ==> FullOk(e, m) || e.outs[m].status.Stalled?
    ensures StatusFrom(e, i, STALL) == if exists k: nat :: GoneBehind(e, j, k) then NO_DEVICE else STALL
    decreases |e.outs| - i
  {
    if i < |e.outs| {
      if FullOk(e, i) || e.outs[i].status.Stalled? {
        StallStays(e, j, i + 1);
      } else if e.outs[i].status.DeviceGone? {
        GoneStays(e, i + 1);
        assert GoneBehind(e, j, i);
      } else {
        NoneBehind(e, j, i);
      }
    }
  }

  lemma {:induction false} FullPrefix(e: Env, i: nat)
    requires EnvOk(e) && e.submitted == |e.layout| && i <= FirstNotFull(e, 0)
    ensures StatusFrom(e, i, COMPLETED) == StatusFrom(e, FirstNotFull(e, 0), COMPLETED)
    decreases |e.outs| - i
  {
    if i < FirstNotFull(e, 0) {
      assert FullOk(e, i);
      FullPrefix(e, i + 1);
    }
  }

  lemma FinalIsStatusOf(e: Env)
    requires EnvOk(e) && e.submitted == |e.layout|
    ensures FinalStatus(e) == StatusOf(e)
  {
    var j := FirstNotFull(e, 0);
    FullPrefix(e, 0);
    if j < |e.outs| {
      GoneStays(e, j + 1);
      StallStays(e, j, j + 1);
    }
  }

  // The cancel finds the transfer in flight, the kernel gives back its last URB and fails for none. A bulk
  // transfer that has failed by then keeps its failure.
  predicate AcceptedCancel(w: World, s: Step) {
    && s.Cancel? && w.t.Live() && !(s.isBulk && w.t.action == Errored) && s.answer(|w.t.urbs| - 1).Discarded?
    && forall j :: 0 <= j < |w.t.urbs| ==> s.answer(j).Discarded? || s.answer(j).Invalid?
  }

  lemma CancelMarks(e: Env, w: World, s: Step, w': World)
    requires EnvOk(e) && Inv(e, w) && Next(e, w, s, w')
    ensures w'.t.action == Cancelled <==> w.t.action == Cancelled || AcceptedCancel(w, s)
  {
    match s {
      case Cancel(isBulk, answer) => if w.t.Live() { DiscardSucceedsIff(answer, 0, |w.t.urbs|); }
      case Reap(i) => if w.t.Live() { var r := LiveReapIsNext(e, w, i, w'); hide Inv, Next; }
      case _ =>
    }
  }

  lemma {:induction false} CancelledIff(e: Env, ws: seq<World>, steps: seq<Step>, k: nat)
    requires EnvOk(e) && KernelData(e) && Run(e, ws, steps) && k < |ws|
    ensures ws[k].t.action == Cancelled <==> exists j :: 0 <= j < k && AcceptedCancel(ws[j], steps[j])
  {
    hide Next, Inv, KernelData, AcceptedCancel;
    if k == 0 {
      StartsUncancelled(e, ws[0]);
    } else {
      CancelledIff(e, ws, steps, k - 1);
      RunKeeps(e, ws, steps, k - 1);
      CancelMarks(e, ws[k - 1], steps[k - 1], ws[k]);
    }
  }

  lemma StartsUncancelled(e: Env, w: World)
    requires EnvOk(e) && Init(e, w)
    ensures w.t.action != Cancelled
  {
  }

  // Every report a reap makes, in every run: a cancellation if and only if a cancel has been accepted;
  // otherwise the status the URBs say, if all were submitted. If the kernel refused one, it is COMPLETED
  // after EREMOTEIO and ERROR after anything else.
  lemma ReportIsExact(e: Env, ws: seq<World>, steps: seq<Step>, k: nat)
    requires EnvOk(e) && KernelData(e) && Run(e, ws, steps) && k < |ws|
    ensures forall d :: d in ws[k].deliveries && !d.byDisconnect ==>
              d.report ==
              if exists j :: 0 <= j < k && AcceptedCancel(ws[j], steps[j]) then CancellationReport
              else CompletionReport(if e.submitted == |e.layout| then StatusOf(e)
                                    else if e.refusal.RemoteIoError? then COMPLETED else ERROR)
  {
    CancelledIff(e, ws, steps, k);
    RunKeeps(e, ws, steps, k);
    if e.submitted == |e.layout| { FinalIsStatusOf(e); }
    hide Run, KernelData, Counting, NormalOrder, Received, Pending, InPlace, Handed, FailureKept, ShortRefusalKept, StatusOf, AcceptedCancel;
  }

  // No step the kernel or the user may take is ever blocked by the model.
  lemma EveryEnabledStepHappens(e: Env, w: World, s: Step)
    requires EnvOk(e) && Inv(e, w) && Enabled(e, w, s)
    ensures exists w' :: Next(e, w, s, w')
  {
    match s {
      case Land(i) =>
        LandStaysInside(e, w, i);
        assert Next(e, w, s, w.(landed := w.landed + {i}, t := w.t.(buffer := Overwrite(w.t.buffer, e.layout[i].offset, e.outs[i].data))));
      case Reap(i) =>
        ReapHappens(e, w, i);
      case Cancel(isBulk, answer) =>
        assert Next(e, w, s, w.(t := AfterCancel(w.t, isBulk, answer).0));
      case Disconnect =>
        assert Next(e, w, s, w.(t := w.t.(urbs := []), deliveries := w.deliveries + [Deliver(w.t, CompletionReport(NO_DEVICE), true)]));
    }
  }

  lemma ReapHappens(e: Env, w: World, i: nat)
    requires EnvOk(e) && Inv(e, w) && Enabled(e, w, Reap(i))
    ensures exists w' :: Next(e, w, Reap(i), w')
  {
    if w.t.Live() {
      ReapStaysInside(e, w, i);
      var r := ReapStep(w.t, i, e.outs[i].status, |e.outs[i].data|);
      assert r.t.transferred <= |r.t.buffer| by { ReapHasEffect(w.t, i, e.outs[i].status, |e.outs[i].data|); }
      hide ReapStep, Inv;
      var w' := w.(t := r.t, done := w.done + {i},
                   deliveries := w.deliveries + if r.report.Some? then [Deliver(r.t, r.report.value, false)] else []);
      assert Next(e, w, Reap(i), w');
    } else {
      assert Next(e, w, Reap(i), w.(dropped := w.dropped + {i}));
    }
  }
}
