// The streaming code of librtlsdr.c in place: struct rtlsdr_dev with the functions that change it,
// each against the steps of Streaming.

module RtlSdrDevice {
  import opened Wrappers
  import opened Streaming

  // One whole callback, when nothing comes between its steps.
  function CallbackRun(d: Dev, e: End, submitOk: bool): Dev {
    var d1 := d.(outstanding := d.outstanding - 1);
    if !(e.Completed? && d.status.Running?) then Acted(d1, e)
    else if submitOk then d1.(outstanding := d1.outstanding + 1, errors := 0)
    else Refused(d1)
  }

  // The steps of a callback add up to CallbackRun, and to one entry on the list or none.
  lemma CallbackIsItsSteps(ss: seq<State>, es: seq<Step>, who: Who, t: Id, e: End)
    requires 4 <= |ss| <= 7 && |ss| == |es| + 1 && ss[0].cb == Started(who, t, e) && t !in ss[0].lib.linked
    requires forall i :: 0 <= i < |es| ==> CallbackStep(ss[i], es[i], ss[i + 1])
    requires forall i :: 0 < i < |es| ==> !ss[i].cb.NoCallback?
    requires ss[|es|].cb.NoCallback?
    ensures exists ok :: ss[|es|].dev == CallbackRun(ss[0].dev, e, ok)
                         && (ss[|es|].lib.linked ==
                               if e.Completed? && ss[0].dev.status.Running? && ok then ss[0].lib.linked + {t}
                               else ss[0].lib.linked)
  {
    var d1 := ss[0].dev.(outstanding := ss[0].dev.outstanding - 1);
    assert CallbackStep(ss[0], es[0], ss[1]) && CallbackStep(ss[1], es[1], ss[2]) && CallbackStep(ss[2], es[2], ss[3]);
    assert ss[2].dev == d1 && ss[2].lib == ss[0].lib && ss[2].cb == Counted(who, t, e);
    hide Acted, Refused;
    if e.Completed? && ss[0].dev.status.Running? {
      assert CallbackStep(ss[3], es[3], ss[4]);
      if |ss| == 5 {
        assert ss[4].dev == CallbackRun(ss[0].dev, e, false);
      } else {
        Resubmits(ss[3], es[3..], ss[4], ss[5], ss[6]);
        assert ss[6].dev == CallbackRun(ss[0].dev, e, true);
      }
    } else {
      assert ss[3].dev == CallbackRun(ss[0].dev, e, false);
    }
  }

  lemma Resubmits(s: State, es: seq<Step>, s1: State, s2: State, s3: State)
    requires |es| >= 3 && s.cb.WillSubmit? && !s1.cb.NoCallback? && !s2.cb.NoCallback?
    requires CallbackStep(s, es[0], s1) && CallbackStep(s1, es[1], s2) && CallbackStep(s2, es[2], s3)
    ensures s3.dev == s.dev.(outstanding := s.dev.outstanding + 1, errors := 0)
    ensures s3.lib.linked == s.lib.linked + {s.cb.t} && s3.cb.NoCallback?
  {
    hide Acted, Refused, CancelAsync;
  }

  // The two steps of a cancel add up to rtlsdr_cancel_async, when nothing comes between them.
  lemma CancelIsItsSteps(s: State, s1: State, s2: State)
    requires OtherStep(s, CancelRead, s1) && OtherStep(s1, CancelWrite, s2)
    ensures s2 == s.(dev := CancelAsync(s.dev)) && s2.dev != s.dev
  {
  }

  // The buffers that could be allocated.
  function Present(bufs: seq<Option<nat>>): seq<nat> {
    if bufs == [] then [] else (if bufs[0].Some? then [bufs[0].value] else []) + Present(bufs[1..])
  }

  // How many of the first i are there.
  function Rank(bufs: seq<Option<nat>>, i: nat): nat
    requires i <= |bufs|
  {
    if i == 0 then 0 else Rank(bufs, i - 1) + if bufs[i - 1].Some? then 1 else 0
  }

  lemma {:induction false} PresentIs(bufs: seq<Option<nat>>, n: nat)
    requires n <= |bufs|
    ensures Present(bufs) == Present(bufs[..n]) + Present(bufs[n..]) && |Present(bufs[..n])| == Rank(bufs, n)
    decreases n
  {
    if n == 0 {
      assert bufs[0..] == bufs && Present(bufs[..0]) == [];
    } else {
      PresentIs(bufs, n - 1);
      PresentAppend(bufs[..n - 1], bufs[n - 1]);
      PresentOne(bufs[n - 1], bufs[n..]);
      assert bufs[..n] == bufs[..n - 1] + [bufs[n - 1]] && bufs[n - 1..] == [bufs[n - 1]] + bufs[n..];
      hide Present;
    }
  }

  function One(b: Option<nat>): seq<nat> { if b.Some? then [b.value] else [] }

  lemma PresentOne(b: Option<nat>, rest: seq<Option<nat>>)
    ensures Present([b] + rest) == One(b) + Present(rest)
  {
    assert ([b] + rest)[1..] == rest;
  }

  lemma {:induction false} PresentAppend(bufs: seq<Option<nat>>, b: Option<nat>)
    ensures Present(bufs + [b]) == Present(bufs) + One(b)
    decreases |bufs|
  {
    if bufs == [] {
      assert bufs + [b] == [b] + [];
      PresentOne(b, []);
    } else {
      var head, rest := bufs[0], bufs[1..];
      assert bufs == [head] + rest && bufs + [b] == [head] + (rest + [b]);
      PresentOne(head, rest);
      PresentOne(head, rest + [b]);
      PresentAppend(rest, b);
      hide Present, One;
    }
  }

  // Every buffer that is there, once and in order, and nothing else.
  lemma PresentKeepsEach(bufs: seq<Option<nat>>)
    ensures |Present(bufs)| == Rank(bufs, |bufs|)
    ensures forall i :: 0 <= i < |bufs| && bufs[i].Some? ==>
              Rank(bufs, i) < |Present(bufs)| && Present(bufs)[Rank(bufs, i)] == bufs[i].value
  {
    PresentIs(bufs, |bufs|);
    assert bufs[..|bufs|] == bufs && bufs[|bufs|..] == [];
    forall i | 0 <= i < |bufs| && bufs[i].Some?
      ensures Rank(bufs, i) < |Present(bufs)| && Present(bufs)[Rank(bufs, i)] == bufs[i].value
    {
      PresentIs(bufs, i);
      assert bufs[i..][0] == bufs[i];
    }
  }

  const WAIT_MS: nat := 2000

  class RtlSdrDev {
    var asyncStatus: Status
    var xferOutstanding: int
    var devLost: bool
    var xferErrors: nat
    var xferBufNum: nat
    var xfer: Option<seq<Id>>
    var asyncCancel: bool
    var xferBuf: Option<seq<Option<nat>>>

    function D(): Dev
      reads this
    {
      Dev(asyncStatus, xferOutstanding, devLost, xferErrors, xferBufNum, xfer, asyncCancel)
    }

    // rtlsdr_cancel_async
    method Cancel() returns (r: int)
      modifies this
      ensures D() == CancelAsync(old(D())) && xferBuf == old(xferBuf)
      ensures if old(asyncStatus).Running? then asyncStatus.Canceling? && asyncCancel else D() == old(D())
      ensures r == if old(asyncStatus).Running? then 0 else -2
    {
      if asyncStatus.Running? {
        asyncStatus, asyncCancel := Canceling, true;
        return 0;
      }
      return -2;
    }

    // The wait of rtlsdr_close; seen(k) is the status its k-th look finds.
    static method WaitForEnd(seen: nat -> Status) returns (inactive: bool)
      ensures inactive <==> exists k: nat :: k <= 2000 && seen(k).Inactive?
    {
      var waitMs, k: nat := WAIT_MS, 0;
      while !seen(k).Inactive? && waitMs > 0
        invariant k + waitMs == WAIT_MS && 0 <= waitMs
        invariant forall j: nat :: j < k ==> !seen(j).Inactive?
        decreases waitMs
      {
        waitMs, k := waitMs - 1, k + 1;
      }
      inactive := seen(k).Inactive?;
    }

    // _libusb_callback on a transfer with status e; submitOk is what libusb_submit_transfer would say
    method Callback(e: End, submitOk: bool) returns (resubmitted: bool)
      modifies this
      ensures D() == CallbackRun(old(D()), e, submitOk) && xferBuf == old(xferBuf)
      ensures resubmitted <==> e.Completed? && old(asyncStatus).Running? && submitOk
      ensures xferOutstanding == old(xferOutstanding) - if resubmitted then 0 else 1
      // an error counts until a transfer completes
      ensures xferErrors == if e.Completed? then 0 else old(xferErrors) + if e.Error? then 1 else 0
      // the device is given up for a new submission that fails, an unplug, or as many errors as transfers
      ensures var refused := e.Completed? && old(asyncStatus).Running? && !submitOk;
              var givenUp := !e.Completed? && !e.Cancelled? && (e.NoDevice? || xferErrors >= xferBufNum);
              && devLost == (old(devLost) || refused || givenUp)
              && asyncStatus == (if refused || givenUp then Canceling else old(asyncStatus))
              && asyncCancel == (old(asyncCancel) || refused)
      ensures xfer == old(xfer) && xferBufNum == old(xferBufNum)
    {
      xferOutstanding, resubmitted := xferOutstanding - 1, false;
      if e.Completed? {
        if asyncStatus.Running? {
          if !submitOk {
            devLost := true;
            var _ := Cancel();
          } else {
            xferOutstanding, resubmitted := xferOutstanding + 1, true;
          }
        }
        xferErrors := 0;
      } else if !e.Cancelled? {
        if e.Error? { xferErrors := xferErrors + 1; }
        if xferErrors >= xferBufNum || e.NoDevice? {
          devLost, asyncStatus := true, Canceling;
        }
      }
    }

    // _rtlsdr_free_async_buffers: the transfers and the buffers it gives back
    method FreeAsyncBuffers() returns (r: int, freed: seq<Id>, freedBufs: seq<nat>)
      modifies this
      ensures D() == FreeBuffers(old(D())) && xfer == None
      ensures freed == if old(xferOutstanding) == 0 && old(xfer).Some? then old(xfer).value else []
      ensures xferBuf == None
      ensures freedBufs == if old(xferOutstanding) == 0 && old(xferBuf).Some? then Present(old(xferBuf).value) else []
      ensures r == if old(xferOutstanding) == 0 then 0 else -2
    {
      freed, freedBufs := [], [];
      if xferOutstanding != 0 {
        xfer, xferBuf := None, None;
        return -2, freed, freedBufs;
      }
      if xfer.Some? {
        var i := 0;
        while i < |xfer.value|
          invariant 0 <= i <= |old(xfer).value| && xfer == old(xfer) && D() == old(D()) && xferBuf == old(xferBuf)
          invariant freed == old(xfer).value[..i]
        {
          freed := freed + [xfer.value[i]];
          i := i + 1;
        }
        assert freed == old(xfer).value;
        xfer := None;
      }
      freedBufs := FreeBufs();
      r := 0;
    }

    method FreeBufs() returns (freedBufs: seq<nat>)
      modifies this
      ensures D() == old(D()) && xferBuf == None
      ensures freedBufs == if old(xferBuf).Some? then Present(old(xferBuf).value) else []
    {
      freedBufs := [];
      if xferBuf.Some? {
        var i := 0;
        while i < |xferBuf.value|
          invariant 0 <= i <= |old(xferBuf).value| && xferBuf == old(xferBuf) && D() == old(D())
          invariant freedBufs + Present(old(xferBuf).value[i..]) == Present(old(xferBuf).value)
        {
          if xferBuf.value[i].Some? { freedBufs := freedBufs + [xferBuf.value[i].value]; }
          i := i + 1;
        }
        xferBuf := None;
      }
    }
  }
}
