// The bulk code of linux_usbfs.c as it runs: a transfer object whose URB array, counters and user
// buffer are updated in place. Every method is proved against the functions of UrbEngine. The
// usercontext of each URB, which outlives the transfer's hold on the array, is an array of its own.

module UrbTransfer {
  import opened Wrappers
  import opened UrbEngine

  class BulkTransfer {
    const buffer: array<Byte>
    var transferred: nat
    var urbs: array?<Urb>     // tpriv->urbs
    var contexts: array?<bool>   // of the URBs last allocated: whether usercontext is set
    var numUrbs: nat
    var numRetired: nat
    var reapAction: ReapAction
    var reapStatus: TransferStatus

    constructor (length: nat)
      ensures fresh(buffer) && buffer.Length == length
      ensures transferred == 0 && urbs == null
    {
      buffer := new Byte[length](_ => 0);
      transferred, urbs, contexts, numUrbs, numRetired, reapAction, reapStatus := 0, null, null, 0, 0, Normal, COMPLETED;
    }

    // libusb never asks for an empty URB array.
    ghost predicate Valid()
      reads this, urbs
    {
      urbs != null ==> 0 < urbs.Length == numUrbs && contexts != null && contexts.Length == numUrbs
    }

    // A URB of the last array that the kernel still returns is taken for a stale one.
    ghost predicate Zeroed()
      reads this, contexts
    {
      contexts != null ==> forall i :: 0 <= i < contexts.Length ==> !contexts[i]
    }

    function State(): (t: Transfer)
      reads this, buffer, urbs
      ensures Valid() ==> (t.Live() <==> urbs != null)
    {
      Transfer(buffer[..], transferred, if urbs == null then [] else urbs[..],
               numUrbs, numRetired, reapAction, reapStatus)
    }

    // submit_bulk_transfer. answer(i) is what the kernel says to the i-th SUBMITURB.
    method SubmitBulkTransfer(q: Request, allocOk: bool, answer: nat -> SubmitAnswer) returns (r: SubmitResult)
      requires q.length == buffer.Length
      modifies this
      ensures r == ErrNotSupported <==> q.isOut && q.addZeroPacket && !q.caps.zeroPacket
      ensures r == ErrNotSupported || !allocOk ==> State() == old(State()) && (r == ErrNotSupported || r == ErrNoMem)
      ensures r != ErrNotSupported && allocOk ==>
        var n := q.Count();
        var k := FirstRefused(answer, 0, n);
        && Valid()
        && State() == AfterSubmit(old(State()), q, k, answer(k))
        && (r == if k != 0 then Submitted else if answer(0) == NoDevice then ErrNoDevice else ErrIo)
        && contexts != null && fresh(contexts) && contexts.Length == n
        && forall j :: 0 <= j < n ==> (contexts[j] <==> j <= k)
    {
      hide UrbAt, FirstRefused, ChunkLength, Prepared;
      if q.isOut && q.addZeroPacket && !q.caps.zeroPacket { return ErrNotSupported; }
      var n := q.Count();
      if !allocOk { return ErrNoMem; }
      var us, cs := new Urb[n](_ => BlankUrb), new bool[n](_ => false);
      urbs, contexts := us, cs;
      numUrbs, numRetired, reapAction, reapStatus := n, 0, Normal, COMPLETED;
      var i := SubmitUrbs(us, cs, q, answer);
      r := Submitted;
      if i < n { r := Refused(i, answer(i)); }
    }

    // the part of the loop for the URB that the kernel refuses
    method Refused(i: nat, a: SubmitAnswer) returns (r: SubmitResult)
      requires Valid() && urbs != null && i < numUrbs && numRetired == 0
      modifies this`urbs, this`reapAction, this`numRetired
      ensures Valid()
      ensures State() == if i == 0 then old(State()).(urbs := [])
                         else old(State()).(numRetired := numUrbs - i, action := if a.RemoteIoError? then CompletedEarly else SubmitFailed)
      ensures r == if i != 0 then Submitted else if a == NoDevice then ErrNoDevice else ErrIo
    {
      if i == 0 {
        urbs := null;
        return if a == NoDevice then ErrNoDevice else ErrIo;
      }
      reapAction := if a.RemoteIoError? then CompletedEarly else SubmitFailed;
      numRetired := numRetired + numUrbs - i;
      return Submitted;
    }

    // The loop of submit_bulk_transfer: fill in each URB and hand it over, until one is refused.
    static method SubmitUrbs(us: array<Urb>, cs: array<bool>, q: Request, answer: nat -> SubmitAnswer) returns (i: nat)
      requires us.Length == q.Count() == cs.Length
      requires forall j :: 0 <= j < us.Length ==> us[j] == BlankUrb && !cs[j]
      modifies us, cs
      ensures i == FirstRefused(answer, 0, q.Count())
      ensures us[..] == Prepared(q, i)
      ensures forall j :: 0 <= j < cs.Length ==> (cs[j] <==> j <= i)
    {
      var chunk, n := q.Chunk(), q.Count();
      i := 0;
      while i < n
        invariant 0 <= i <= n
        invariant forall j :: 0 <= j < i ==> us[j] == UrbAt(q, j) && answer(j).Accepted?
        invariant forall j :: i <= j < n ==> us[j] == BlankUrb
        invariant forall j :: 0 <= j < n ==> (cs[j] <==> j < i)
      {
        cs[i] := true;
        var length := chunk;
        if i == n - 1 && q.length % chunk > 0 {
          length := q.length % chunk;
        } else if q.length == 0 {
          length := 0;
        }
        us[i] := Urb(i * chunk, length, UsesContinuation(q.caps) && !q.isOut && i < n - 1,
                     i > 0 && UsesContinuation(q.caps), q.isOut && i == n - 1 && q.addZeroPacket);
        assert us[i] == UrbAt(q, i);
        if !answer(i).Accepted? { break; }
        i := i + 1;
      }
      FirstRefusedIs(answer, 0, n, i);
    }

    // discard_urbs: last URB first.
    method DiscardUrbs(first: nat, lastPlusOne: nat, answer: nat -> DiscardAnswer) returns (ret: CancelResult)
      requires first <= lastPlusOne
      ensures ret == DiscardResult(answer, first, lastPlusOne)
    {
      ret := CancelOk;
      var i: nat := lastPlusOne;
      while i > first
        invariant first <= i <= lastPlusOne
        invariant DiscardFrom(answer, first, i, lastPlusOne, ret) == DiscardResult(answer, first, lastPlusOne)
      {
        i := i - 1;
        match answer(i) {
          case Discarded =>
          case Invalid => if i == lastPlusOne - 1 { ret := CancelNotFound; }
          case Gone => ret := CancelNoDevice;
          case Unknown => ret := CancelOther;
        }
      }
    }

    // op_cancel_transfer
    method OpCancelTransfer(isBulk: bool, answer: nat -> DiscardAnswer) returns (r: CancelResult)
      requires Valid()
      modifies this`reapAction
      ensures Valid()
      ensures (State(), r) == AfterCancel(old(State()), isBulk, answer)
      // what that means: a cancel that is accepted marks the transfer, and no other changes it
      ensures r == CancelOk <==>
                && urbs != null && answer(numUrbs - 1).Discarded?
                && forall j :: 0 <= j < numUrbs ==> answer(j).Discarded? || answer(j).Invalid?
      ensures reapAction == if r != CancelOk || (isBulk && old(reapAction) == Errored) then old(reapAction) else Cancelled
    {
      if urbs == null { return CancelNotFound; }
      DiscardSucceedsIff(answer, 0, numUrbs);
      r := DiscardUrbs(0, numUrbs, answer);
      if r != CancelOk { return r; }
      if isBulk && reapAction == Errored { return CancelOk; }
      reapAction := Cancelled;
    }

    // op_clear_transfer_priv
    method OpClearTransferPriv()
      requires Valid()
      modifies this`urbs, contexts
      ensures Valid()
      ensures State() == old(State()).(urbs := [])
      ensures if old(urbs) != null then Zeroed() else contexts != null ==> contexts[..] == old(contexts[..])
    {
      if urbs != null {
        ZeroContexts();
        urbs := null;
      }
    }

    method ZeroContexts()
      requires Valid() && urbs != null
      modifies contexts
      ensures Zeroed()
    {
      for i := 0 to numUrbs
        invariant forall j :: 0 <= j < i ==> !contexts[j]
      {
        contexts[i] := false;
      }
    }

    method Memmove(dst: nat, src: nat, n: nat)
      requires src + n <= buffer.Length && dst + n <= buffer.Length
      modifies buffer
      ensures buffer[..] == Move(old(buffer[..]), src, dst, n)
    {
      forall k | 0 <= k < n { buffer[dst + k] := buffer[src + k]; }
    }

    // handle_bulk_completion. report is what is passed on once the transfer lock is released; URBs from
    // discardFrom on are discarded.
    method HandleBulkCompletion(urbIdx: nat, status: UrbStatus, actualLength: nat)
      returns (report: Option<Report>, discardFrom: Option<nat>)
      requires Valid() && CanReap(State(), urbIdx, actualLength)
      modifies this, buffer, contexts
      ensures Valid()
      ensures StepResult(State(), report) == ReapStep(old(State()), urbIdx, status, actualLength)
      ensures discardFrom ==
              if && old(urbs) != null && old(reapAction) == Normal && report == None
                 && (|| status.DeviceGone? || status.Stalled? || status.LowLevel? || status.Unrecognised?
                     || actualLength < old(urbs[urbIdx].length))
              then Some(urbIdx + 1) else None
      ensures contexts == old(contexts)
      ensures if report.Some? then Zeroed() else contexts != null ==> contexts[..] == old(contexts[..])
    {
      hide AbnormalReap, NormalReap, Move;
      if urbs == null { return None, None; }
      numRetired := numRetired + 1;
      if reapAction != Normal {
        report := SurplusReap(urbIdx, actualLength);
        return report, None;
      }
      transferred := transferred + actualLength;
      report, discardFrom := OrderlyReap(urbIdx, status, actualLength);
    }

    // the branch for transfers that are still NORMAL
    method OrderlyReap(urbIdx: nat, status: UrbStatus, actualLength: nat) returns (report: Option<Report>, discardFrom: Option<nat>)
      requires Valid() && urbs != null && urbIdx < urbs.Length
      modifies this, contexts
      ensures Valid() && contexts == old(contexts)
      ensures StepResult(State(), report) == NormalReap(old(State()), urbIdx, status, actualLength)
      ensures discardFrom == if EndsEarly(old(State()), urbIdx, status, actualLength) && report == None then Some(urbIdx + 1) else None
      ensures status.Overflowed? || (Benign(status) && urbIdx == old(numUrbs) - 1) ==> report.Some?
      ensures if report.Some? then Zeroed() else contexts != null ==> contexts[..] == old(contexts[..])
    {
      discardFrom := None;
      if status.Overflowed? {
        if reapStatus == COMPLETED { reapStatus := OVERFLOW; }
        report := Completed();
      } else if Benign(status) {
        if urbIdx == numUrbs - 1 {
          report := Completed();
        } else if actualLength < urbs[urbIdx].length {
          reapAction := CompletedEarly;
          report, discardFrom := CancelTheRest(urbIdx);
        } else {
          report := None;
        }
      } else {
        if status.DeviceGone? {
          reapStatus := NO_DEVICE;
        } else if status.Stalled? {
          if reapStatus == COMPLETED { reapStatus := STALL; }
        } else {
          reapAction := Errored;
        }
        report, discardFrom := CancelTheRest(urbIdx);
      }
    }

    // the branch for transfers that are already ending: keep the data, close the hole
    method SurplusReap(urbIdx: nat, actualLength: nat) returns (report: Option<Report>)
      requires Valid() && urbs != null && CanReap(State(), urbIdx, actualLength)
      modifies this, buffer, contexts
      ensures Valid() && contexts == old(contexts)
      ensures if report.Some? then Zeroed() else contexts != null ==> contexts[..] == old(contexts[..])
      ensures var t := old(State());
        StepResult(State(), report) ==
        AbnormalReap(t.(transferred := t.transferred + actualLength,
                        buffer := Move(t.buffer, t.urbs[urbIdx].offset, t.transferred, actualLength)))
    {
      ghost var b := buffer[..];
      if actualLength > 0 {
        if urbs[urbIdx].offset != transferred {
          Memmove(transferred, urbs[urbIdx].offset, actualLength);
        }
        transferred := transferred + actualLength;
      }
      assert buffer[..] == Move(b, urbs[urbIdx].offset, old(transferred), actualLength);
      if numRetired == numUrbs {
        if reapAction != CompletedEarly && reapStatus == COMPLETED { reapStatus := ERROR; }
        report := Completed();
      } else {
        report := None;
      }
    }

    // the cancel_remaining label
    method CancelTheRest(urbIdx: nat) returns (report: Option<Report>, discardFrom: Option<nat>)
      requires Valid() && urbs != null
      modifies this, contexts
      ensures Valid() && contexts == old(contexts)
      ensures StepResult(State(), report) == CancelRemaining(old(State()))
      ensures discardFrom == if report == None then Some(urbIdx + 1) else None
      ensures if report.Some? then Zeroed() else contexts != null ==> contexts[..] == old(contexts[..])
    {
      if reapAction == Errored && reapStatus == COMPLETED { reapStatus := ERROR; }
      if numRetired == numUrbs {
        report := Completed();
        discardFrom := None;
      } else {
        report, discardFrom := None, Some(urbIdx + 1);
      }
    }

    // the completed label
    method Completed() returns (report: Option<Report>)
      requires Valid() && urbs != null
      modifies this`urbs, contexts
      ensures Valid()
      ensures StepResult(State(), report) == Finish(old(State()))
      ensures report.Some? && Zeroed()
    {
      ZeroContexts();
      urbs := null;
      report := Some(if reapAction == Cancelled then CancellationReport else CompletionReport(reapStatus));
    }
  }

  // The reap tears the rest of the transfer down.
  predicate EndsEarly(t: Transfer, idx: nat, status: UrbStatus, actual: nat)
    requires idx < |t.urbs|
  {
    !status.Overflowed? && (Benign(status) ==> idx != t.numUrbs - 1 && actual < t.urbs[idx].length)
  }

  lemma {:induction false} FirstRefusedIs(answer: nat -> SubmitAnswer, i: nat, n: nat, k: nat)
    requires i <= k <= n
    requires forall j :: i <= j < k ==> answer(j).Accepted?
    requires k < n ==> !answer(k).Accepted?
    ensures FirstRefused(answer, i, n) == k
    decreases k - i
  {
    if i < k { FirstRefusedIs(answer, i + 1, n, k); }
  }
}
