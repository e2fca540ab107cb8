// The usbfs bulk engine of libusb-andro/libusb/os/linux_usbfs.c: one transfer is split into
// several URBs, the URBs are reaped one at a time, and exactly one completion is reported.
//
// This module says what one call does to a transfer. UrbKernel.dfy adds the kernel and proves the
// theorems over all runs; UrbTransfer.dfy proves the imperative code against the functions here.

module UrbEngine {
  import opened Wrappers

  const MAX_BULK_BUFFER_LENGTH: nat := 16384

  datatype ReapAction = Normal | SubmitFailed | Cancelled | CompletedEarly | Errored

  datatype TransferStatus = COMPLETED | ERROR | TIMED_OUT | CANCELLED | STALL | NO_DEVICE | OVERFLOW

  // urb->status, grouped as the switch in handle_bulk_completion groups the errno values.
  datatype UrbStatus =
    | Success          // 0
    | RemoteIo         // -EREMOTEIO, a short transfer
    | Unlinked         // -ENOENT, -ECONNRESET
    | DeviceGone       // -ENODEV, -ESHUTDOWN
    | Stalled          // -EPIPE
    | Overflowed       // -EOVERFLOW
    | LowLevel         // -ETIME, -EPROTO, -EILSEQ, -ECOMM, -ENOSR
    | Unrecognised(errno: int)

  datatype Urb = Urb(offset: nat, length: nat, shortNotOk: bool, continuation: bool, zeroPacket: bool)

  // What the user is told: usbi_handle_transfer_cancellation or usbi_handle_transfer_completion.
  datatype Report = CancellationReport | CompletionReport(status: TransferStatus)

  // The transfer as libusb sees it. urbs == [] stands for tpriv->urbs == NULL.
  datatype Transfer = Transfer(
    buffer: seq<Byte>,
    transferred: nat,
    urbs: seq<Urb>,
    numUrbs: nat,
    numRetired: nat,
    action: ReapAction,
    status: TransferStatus)
  {
    predicate Live() { urbs != [] }
  }

  datatype StepResult = StepResult(t: Transfer, report: Option<Report>)

  predicate Benign(s: UrbStatus) { s.Success? || s.RemoteIo? || s.Unlinked? }

  predicate Halts(s: UrbStatus) { s.DeviceGone? || s.Stalled? }

  // ---------------------------------------------------------------- splitting

  datatype Capabilities = Capabilities(
    zeroPacket: bool, scatterGather: bool, bulkContinuation: bool, noPacketSizeLim: bool)

  function ChunkLength(caps: Capabilities, length: nat): (c: nat)
    ensures c > 0
  {
    if caps.scatterGather then (if length > 0 then length else 1)
    else if caps.bulkContinuation then MAX_BULK_BUFFER_LENGTH
    else if caps.noPacketSizeLim then (if length > 0 then length else 1)
    else MAX_BULK_BUFFER_LENGTH
  }

  predicate UsesContinuation(caps: Capabilities) { !caps.scatterGather && caps.bulkContinuation }

  function UrbCount(length: nat, chunk: nat): (n: nat)
    requires chunk > 0
    ensures n > 0
  {
    if length == 0 then 1 else if length % chunk > 0 then length / chunk + 1 else
      (assert length / chunk > 0; length / chunk)
  }

  datatype Request = Request(length: nat, isOut: bool, addZeroPacket: bool, caps: Capabilities) {
    function Chunk(): (c: nat)
      ensures c > 0
    { ChunkLength(caps, length) }

    function Count(): (n: nat)
      ensures n > 0
    { UrbCount(length, Chunk()) }
  }

  function UrbAt(q: Request, i: nat): Urb
    requires i < q.Count()
  {
    var n := q.Count();
    Urb(
      i * q.Chunk(),
      if i == n - 1 && q.length % q.Chunk() > 0 then q.length % q.Chunk()
      else if q.length == 0 then 0 else q.Chunk(),
      UsesContinuation(q.caps) && !q.isOut && i < n - 1,
      i > 0 && UsesContinuation(q.caps),
      q.isOut && i == n - 1 && q.addZeroPacket)
  }

  function Layout(q: Request): (urbs: seq<Urb>)
    ensures |urbs| == q.Count()
  {
    seq(q.Count(), i requires 0 <= i < q.Count() => UrbAt(q, i))
  }

  // The URBs tile [0, length) in order, without gap or overlap.
  ghost predicate Tiles(urbs: seq<Urb>, length: nat)
  {
    && |urbs| > 0
    && urbs[0].offset == 0
    && (forall i :: 0 <= i < |urbs| - 1 ==> urbs[i + 1].offset == urbs[i].offset + urbs[i].length)
    && urbs[|urbs| - 1].offset + urbs[|urbs| - 1].length == length
  }

  lemma LayoutTiles(q: Request)
    ensures Tiles(Layout(q), q.length)
    ensures q.length > 0 ==> forall i :: 0 <= i < |Layout(q)| ==> 0 < Layout(q)[i].length <= q.Chunk()
    // Only the last URB may end short without an error, and only the last carries a zero packet.
    ensures forall i :: 0 <= i < |Layout(q)| ==>
      && (Layout(q)[i].shortNotOk <==> UsesContinuation(q.caps) && !q.isOut && i != |Layout(q)| - 1)
      && (Layout(q)[i].continuation <==> UsesContinuation(q.caps) && i != 0)
      && (Layout(q)[i].zeroPacket <==> q.isOut && q.addZeroPacket && i == |Layout(q)| - 1)
  {
    var c, n, L := q.Chunk(), q.Count(), q.length;
    forall i | 0 <= i < n
      ensures i * c + UrbAt(q, i).length == if i < n - 1 then (i + 1) * c else L
      ensures L > 0 ==> 0 < UrbAt(q, i).length <= c
    {
      UrbEnd(q, i);
    }
  }

  // One URB for the whole transfer if the kernel takes any size, else 16 KiB in each but the last;
  // only the second kind with continuation support ties its URBs together.
  lemma LayoutSizes(q: Request)
    ensures var whole := q.caps.scatterGather || (q.caps.noPacketSizeLim && !q.caps.bulkContinuation);
            var urbs := Layout(q);
            && (whole ==> |urbs| == 1 && urbs[0].length == q.length)
            && (!whole ==> forall i :: 0 <= i < |urbs| - 1 ==> urbs[i].length == 16384)
            && (!whole ==> urbs[|urbs| - 1].length <= 16384)
            && (forall i :: 0 <= i < |urbs| ==>
                  (urbs[i].continuation <==> i > 0 && q.caps.bulkContinuation && !q.caps.scatterGather))
  {
    var L, c := q.length, q.Chunk();
    if L > 0 && c == L {
      assert L / L == 1 && L % L == 0;
    } else if L == 0 {
      assert q.Count() == 1;
    }
    DivMod(L, c);
    if q.Count() > 1 { assert L > 0; }
  }

  lemma UrbEnd(q: Request, i: nat)
    requires i < q.Count()
    ensures i * q.Chunk() + UrbAt(q, i).length == if i < q.Count() - 1 then (i + 1) * q.Chunk() else q.length
    ensures q.length > 0 ==> 0 < UrbAt(q, i).length <= q.Chunk()
  {
    var c, n, L := q.Chunk(), q.Count(), q.length;
    DivMod(L, c);
    if i == n - 1 {
      assert i == L / c || (L % c == 0 && L > 0 && i == L / c - 1);
      if i == L / c { assert i * c == (L / c) * c; } else { assert i * c + c == (L / c) * c; }
    } else {
      assert (i + 1) * c == i * c + c;
    }
  }

  lemma DivMod(x: nat, d: nat)
    requires d > 0
    ensures x == (x / d) * d + x % d
  {
  }

  lemma OffsetsGrow(urbs: seq<Urb>, length: nat, i: nat, j: nat)
    requires Tiles(urbs, length) && i <= j < |urbs|
    ensures urbs[i].offset <= urbs[j].offset
    ensures i < j ==> urbs[i].offset + urbs[i].length <= urbs[j].offset
    ensures urbs[j].offset + urbs[j].length <= length
    decreases |urbs| - i
  {
    if i < j {
      assert urbs[i + 1].offset == urbs[i].offset + urbs[i].length;
      OffsetsGrow(urbs, length, i + 1, j);
    } else if i < |urbs| - 1 {
      assert urbs[i + 1].offset == urbs[i].offset + urbs[i].length;
      OffsetsGrow(urbs, length, i + 1, |urbs| - 1);
    }
  }

  // ---------------------------------------------------------------- submission

  datatype SubmitAnswer = Accepted | NoDevice | RemoteIoError | OtherError

  datatype SubmitResult = Submitted | ErrNotSupported | ErrNoMem | ErrNoDevice | ErrIo

  // The first URB the kernel refuses, or n.
  function FirstRefused(answer: nat -> SubmitAnswer, i: nat, n: nat): (k: nat)
    requires i <= n
    ensures i <= k <= n
    ensures forall j :: i <= j < k ==> answer(j).Accepted?
    ensures k < n ==> !answer(k).Accepted?
    decreases n - i
  {
    if i == n || !answer(i).Accepted? then i else FirstRefused(answer, i + 1, n)
  }

  const BlankUrb := Urb(0, 0, false, false, false)

  // The URB array when the kernel refuses URB k: the ones behind it are still as calloc left them.
  function Prepared(q: Request, k: nat): (urbs: seq<Urb>)
    ensures |urbs| == q.Count()
  {
    seq(q.Count(), i requires 0 <= i < q.Count() => if i <= k then UrbAt(q, i) else BlankUrb)
  }

  // The state left by submit_bulk_transfer when the kernel takes k URBs and refuses the next with a.
  function AfterSubmit(t: Transfer, q: Request, k: nat, a: SubmitAnswer): Transfer
    requires k <= q.Count()
  {
    var n := q.Count();
    var t0 := t.(urbs := Prepared(q, k), numUrbs := n, numRetired := 0, action := Normal, status := COMPLETED);
    if k == n then t0
    else if k == 0 then t0.(urbs := [])
    else t0.(numRetired := n - k, action := if a.RemoteIoError? then CompletedEarly else SubmitFailed)
  }

  // ---------------------------------------------------------------- discarding

  datatype DiscardAnswer = Discarded | Invalid | Gone | Unknown

  datatype CancelResult = CancelOk | CancelNotFound | CancelNoDevice | CancelOther

  // discard_urbs walks from the last URB down to the first; later answers overwrite earlier ones,
  // except that "invalid" counts for the last URB only.
  function DiscardResult(answer: nat -> DiscardAnswer, first: nat, last: nat): CancelResult
    requires first <= last
  {
    DiscardFrom(answer, first, last, last, CancelOk)
  }

  function DiscardFrom(answer: nat -> DiscardAnswer, first: nat, i: nat, last: nat, ret: CancelResult): CancelResult
    requires first <= i <= last
    decreases i
  {
    if i == first then ret
    else DiscardFrom(answer, first, i - 1, last, DiscardOne(answer(i - 1), i == last, ret))
  }

  function DiscardOne(a: DiscardAnswer, isLast: bool, ret: CancelResult): CancelResult {
    match a
    case Discarded => ret
    case Invalid => if isLast then CancelNotFound else ret
    case Gone => CancelNoDevice
    case Unknown => CancelOther
  }

  lemma {:induction false} DiscardFromMeaning(answer: nat -> DiscardAnswer, first: nat, i: nat, last: nat, ret: CancelResult)
    requires first <= i <= last
    ensures var r := DiscardFrom(answer, first, i, last, ret);
      if exists j :: first <= j < i && (answer(j).Gone? || answer(j).Unknown?) then r.CancelNoDevice? || r.CancelOther?
      else if first < i == last && answer(last - 1).Invalid? then r == CancelNotFound
      else r == ret
    decreases i
  {
    if first < i {
      var ret' := DiscardOne(answer(i - 1), i == last, ret);
      DiscardFromMeaning(answer, first, i - 1, last, ret');
    }
  }

  // op_cancel_transfer succeeds exactly when no answer is an error and the last URB was still with the kernel.
  lemma DiscardSucceedsIff(answer: nat -> DiscardAnswer, first: nat, last: nat)
    requires first < last
    ensures DiscardResult(answer, first, last) == CancelOk <==>
      answer(last - 1).Discarded? && forall j :: first <= j < last ==> answer(j).Discarded? || answer(j).Invalid?
  {
    DiscardFromMeaning(answer, first, last, last, CancelOk);
  }

  predicate Fails(a: DiscardAnswer) { a.Gone? || a.Unknown? }

  lemma {:induction false} DiscardErrorIs(answer: nat -> DiscardAnswer, first: nat, i: nat, last: nat, ret: CancelResult, m: nat)
    requires first <= m < i <= last && Fails(answer(m)) && forall j :: first <= j < m ==> !Fails(answer(j))
    ensures DiscardFrom(answer, first, i, last, ret) == if answer(m).Gone? then CancelNoDevice else CancelOther
    decreases i
  {
    var ret' := DiscardOne(answer(i - 1), i == last, ret);
    if i - 1 > m {
      DiscardErrorIs(answer, first, i - 1, last, ret', m);
    } else {
      DiscardFromMeaning(answer, first, m, last, ret');
    }
  }

  // Of the discards that failed the one of the first URB counts, for it is made last. If none did, only
  // the last URB is asked about.
  lemma DiscardResultIs(answer: nat -> DiscardAnswer, first: nat, last: nat)
    requires first < last
    ensures forall m :: first <= m < last && Fails(answer(m)) && (forall j :: first <= j < m ==> !Fails(answer(j))) ==>
              DiscardResult(answer, first, last) == if answer(m).Gone? then CancelNoDevice else CancelOther
    ensures (forall j :: first <= j < last ==> !Fails(answer(j))) ==>
              DiscardResult(answer, first, last) == if answer(last - 1).Invalid? then CancelNotFound else CancelOk
  {
    forall m | first <= m < last && Fails(answer(m)) && forall j :: first <= j < m ==> !Fails(answer(j))
      ensures DiscardResult(answer, first, last) == if answer(m).Gone? then CancelNoDevice else CancelOther
    {
      DiscardErrorIs(answer, first, last, last, CancelOk, m);
    }
    DiscardFromMeaning(answer, first, last, last, CancelOk);
  }

  // op_cancel_transfer. Interrupt transfers take the default arm and lose Errored.
  function AfterCancel(t: Transfer, isBulk: bool, answer: nat -> DiscardAnswer): (Transfer, CancelResult)
  {
    if !t.Live() then (t, CancelNotFound)
    else
      var r := DiscardResult(answer, 0, |t.urbs|);
      if r != CancelOk then (t, r)
      else if isBulk && t.action == Errored then (t, CancelOk)
      else (t.(action := Cancelled), CancelOk)
  }

  // ---------------------------------------------------------------- reaping

  // memmove inside the user's buffer.
  function Move(buffer: seq<Byte>, src: nat, dst: nat, n: nat): (r: seq<Byte>)
    requires src + n <= |buffer| && dst + n <= |buffer|
    ensures |r| == |buffer|
  {
    buffer[..dst] + buffer[src..src + n] + buffer[dst + n..]
  }

  function Finish(t: Transfer): StepResult {
    StepResult(t.(urbs := []),
               Some(if t.action == Cancelled then CancellationReport else CompletionReport(t.status)))
  }

  predicate CanReap(t: Transfer, idx: nat, actual: nat) {
    t.Live() ==>
      && idx < |t.urbs|
      && t.urbs[idx].offset + actual <= |t.buffer|
      && t.transferred + actual <= |t.buffer|
  }

  // handle_bulk_completion for URB idx, which comes back with the given status and actual_length.
  function ReapStep(t: Transfer, idx: nat, status: UrbStatus, actual: nat): StepResult
    requires CanReap(t, idx, actual)
  {
    if !t.Live() then StepResult(t, None)
    else
      var t1 := t.(numRetired := t.numRetired + 1, transferred := t.transferred + actual);
      if t.action != Normal then AbnormalReap(t1.(buffer := Move(t.buffer, t.urbs[idx].offset, t.transferred, actual)))
      else NormalReap(t1, idx, status, actual)
  }

  function NormalReap(t: Transfer, idx: nat, status: UrbStatus, actual: nat): StepResult
    requires idx < |t.urbs|
  {
    if status.Overflowed? then Finish(t.(status := if t.status == COMPLETED then OVERFLOW else t.status))
    else if Benign(status) then
      if idx == t.numUrbs - 1 then Finish(t)
      else if actual < t.urbs[idx].length then CancelRemaining(t.(action := CompletedEarly))
      else StepResult(t, None)
    else if status.DeviceGone? then CancelRemaining(t.(status := NO_DEVICE))
    else if status.Stalled? then CancelRemaining(t.(status := if t.status == COMPLETED then STALL else t.status))
    else CancelRemaining(t.(action := Errored))
  }

  function AbnormalReap(t: Transfer): StepResult {
    if t.numRetired == t.numUrbs then
      Finish(t.(status := if t.action != CompletedEarly && t.status == COMPLETED then ERROR else t.status))
    else StepResult(t, None)
  }

  function CancelRemaining(t: Transfer): StepResult {
    var t' := t.(status := if t.action == Errored && t.status == COMPLETED then ERROR else t.status);
    if t'.numRetired == t'.numUrbs then Finish(t') else StepResult(t', None)
  }

  // A transfer whose first URB was refused, or that libusb has let go of, never reports anything: what
  // the kernel still returns for it is dropped.
  lemma RefusedReportsNothing(t: Transfer, q: Request, a: SubmitAnswer, idx: nat, status: UrbStatus, actual: nat)
    requires !a.Accepted?
    ensures var t' := AfterSubmit(t, q, 0, a);
            CanReap(t', idx, actual) && ReapStep(t', idx, status, actual) == StepResult(t', None)
  {
  }

  // Exactly which reaps report a completion while URBs are still outstanding. Both cases need
  // the kernel to return URBs out of order, or an overflow before the last URB.
  lemma PrematureReportIff(t: Transfer, idx: nat, status: UrbStatus, actual: nat)
    requires t.Live() && CanReap(t, idx, actual)
    ensures var r := ReapStep(t, idx, status, actual);
      r.report.Some? && r.t.numRetired != t.numUrbs <==>
        t.action == Normal && t.numRetired + 1 != t.numUrbs &&
        (status.Overflowed? || (Benign(status) && idx == t.numUrbs - 1))
  {
  }

  // What one reap does to a live transfer, in terms of what goes in and comes out.
  ghost predicate ReapEffect(t: Transfer, idx: nat, status: UrbStatus, actual: nat, r: StepResult)
    requires idx < |t.urbs| && CanReap(t, idx, actual)
  {
    && r.t.numRetired == t.numRetired + 1
    && r.t.numUrbs == t.numUrbs
    && r.t.transferred == t.transferred + actual
    && r.t.buffer == (if t.action == Normal then t.buffer else Move(t.buffer, t.urbs[idx].offset, t.transferred, actual))
    && r.t.urbs == (if r.report.Some? then [] else t.urbs)
    && (r.t.numRetired == t.numUrbs && (idx == t.numUrbs - 1 || t.action != Normal) ==> r.report.Some?)
    && (r.report.Some? && r.t.numRetired != t.numUrbs ==>
          t.action == Normal && (status.Overflowed? || idx == t.numUrbs - 1))
    && if t.action == Normal then NormalEffect(t, idx, status, actual, r) else SurplusEffect(t, r)
  }

  ghost predicate NormalEffect(t: Transfer, idx: nat, status: UrbStatus, actual: nat, r: StepResult)
    requires idx < |t.urbs|
  {
    && (r.report.Some? ==> r.report.value == CompletionReport(r.t.status))
    && if Benign(status) then
         && r.t.status == t.status
         && r.t.action == (if idx < t.numUrbs - 1 && actual < t.urbs[idx].length then CompletedEarly else Normal)
         && (idx == t.numUrbs - 1 ==> r.report.Some?)
         && (idx < t.numUrbs - 1 && actual >= t.urbs[idx].length ==> r.report == None)
       else
         && r.t.status == FailureStatus(t.status, status)
         && r.t.action == (if Halts(status) || status.Overflowed? then Normal else Errored)
  }

  // The first failure decides, but a device that is gone outdoes the others.
  function FailureStatus(was: TransferStatus, status: UrbStatus): (r: TransferStatus)
    ensures r != COMPLETED
  {
    if status.DeviceGone? then NO_DEVICE
    else if was != COMPLETED then was
    else if status.Stalled? then STALL
    else if status.Overflowed? then OVERFLOW
    else ERROR
  }

  ghost predicate SurplusEffect(t: Transfer, r: StepResult)
  {
    && r.t.action == t.action
    && (r.report == None ==> r.t.status == t.status)
    && (r.report.Some? ==>
          && r.t.status == (if t.action != CompletedEarly && t.status == COMPLETED then ERROR else t.status)
          && r.report.value == if t.action == Cancelled then CancellationReport else CompletionReport(r.t.status))
  }

  lemma ReapHasEffect(t: Transfer, idx: nat, status: UrbStatus, actual: nat)
    requires t.Live() && CanReap(t, idx, actual) && t.numUrbs == |t.urbs|
    ensures ReapEffect(t, idx, status, actual, ReapStep(t, idx, status, actual))
  {
  }

  lemma MoveFacts(b: seq<Byte>, src: nat, dst: nat, n: nat)
    requires src + n <= |b| && dst + n <= |b|
    ensures Move(b, src, dst, n)[..dst + n] == b[..dst] + b[src..src + n]
    ensures forall lo: nat, hi: nat {:trigger b[lo..hi]} ::
              dst + n <= lo <= hi <= |b| ==> Move(b, src, dst, n)[lo..hi] == b[lo..hi]
    ensures n == 0 ==> Move(b, src, dst, n) == b
  {
    var m := Move(b, src, dst, n);
    forall lo: nat, hi: nat {:trigger b[lo..hi]} | dst + n <= lo <= hi <= |b| ensures m[lo..hi] == b[lo..hi] {
      assert forall k :: lo <= k < hi ==> m[k] == b[k];
    }
  }

  // The submission-order assumption is needed: libusb discards the URBs behind a stalled one last
  // URB first. If the kernel returns them in that order, the last URB is taken for the end of the
  // transfer, and completion is reported while the middle URB is still with the kernel.
  lemma StallThenReverseOrderReportsEarly(t: Transfer)
    requires |t.urbs| == t.numUrbs == 3 && t.numRetired == 0 && t.action == Normal && t.status == COMPLETED
    requires CanReap(t, 0, 0) && CanReap(t, 2, 0)
    requires forall i :: 0 <= i < 3 ==> t.urbs[i].length > 0
    ensures var r0 := ReapStep(t, 0, Stalled, 0);
      && r0.report == None
      && CanReap(r0.t, 2, 0)
      && var r2 := ReapStep(r0.t, 2, Unlinked, 0);
         r2.report == Some(CompletionReport(STALL)) && r2.t.numRetired == 2
    // in submission order the same three URBs are all waited for
    ensures CanReap(t, 1, 0) ==>
      var r0 := ReapStep(t, 0, Stalled, 0);
      && CanReap(r0.t, 1, 0)
      && var r1 := ReapStep(r0.t, 1, Unlinked, 0);
      && r1.report == None
      && CanReap(r1.t, 2, 0)
      && var r2 := ReapStep(r1.t, 2, Unlinked, 0);
         r2.report == Some(CompletionReport(STALL)) && r2.t.numRetired == 3
  {
  }
}
