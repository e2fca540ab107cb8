// Streaming from an RTL-SDR device: rtlsdr_read_async, its libusb callback, the bounded drain and
// the decision to free or to leak (rtl-sdr/src/librtlsdr.c), against everything that can happen
// meanwhile: completions, an unplug, failed submissions, cancels from other threads, and another
// thread that handles libusb events, as every synchronous control transfer does (libusb-andro/libusb/
// sync.c). A step is one access to what threads share, so counting up or down is two.

module Streaming {
  import opened Wrappers

  type Id = nat

  datatype Status = Inactive | Running | Canceling

  // How libusb ended a transfer; OtherEnd stands for a stall, an overflow or a timeout.
  datatype End = Completed | Cancelled | NoDevice | Error | OtherEnd

  // The fields of struct rtlsdr_dev that the stream uses.
  datatype Dev = Dev(
    status: Status, outstanding: int, lost: bool, errors: nat, bufNum: nat, xfers: Option<seq<Id>>,
    asyncCancel: bool)

  // libusb's side: transfers of this device on the flying list, freed ones, ever allocated ones.
  datatype Lib = Lib(linked: set<Id>, freed: set<Id>, used: set<Id>, ends: map<Id, End>)

  datatype Who = Streamer | Foreign

  // Where _libusb_callback stands. Only the holder of the events lock runs one.
  datatype Callback =
    | NoCallback
    | Started(who: Who, t: Id, e: End)      // about to take the transfer off the count
    | Uncounting(who: Who, t: Id, e: End, v: int)   // has read the count
    | Counted(who: Who, t: Id, e: End)      // about to look at the status
    | WillSubmit(who: Who, t: Id)           // saw RUNNING; about to submit again
    | Submitted(who: Who, t: Id)            // on the flying list again; about to count it
    | Recounting(who: Who, t: Id, v: int)   // has read the count

  // Where rtlsdr_read_async stands.
  datatype Pc =
    | Idle
    | Starting                             // RUNNING is set
    | Submitting(i: nat) | Counting(i: nat) | Storing(i: nat, v: int)
    | LoopTop | Handling | Checking | Branching
    | CancelLoop(i: nat) | CancelEvents(i: nat, ok: bool) | LastEvents
    | DrainTop(tries: nat) | DrainLoop(tries: nat, i: nat) | DrainEvents(tries: nat)
    | Settling | Deciding | Finishing

  // In libusb_handle_events_timeout_completed.
  predicate InEvents(p: Pc) { p.Handling? || p.CancelEvents? || p.LastEvents? || p.DrainEvents? }

  // next: next_status. cancels: threads in rtlsdr_cancel_async that saw RUNNING and have not yet
  // written. offset, kept for the proof: how far the count is off, by what was in flight when it was
  // set to zero and by updates lost since.
  datatype State = State(
    dev: Dev, lib: Lib, pc: Pc, next: Status, cb: Callback, cancels: nat, closed: bool, offset: int)

  datatype Result = Fine | Interrupted | Broken   // of libusb_handle_events_timeout_completed

  datatype Step =
    | Begin | Reset(xs: seq<Id>)
    | Submit(ok: bool) | Count | Store | SubmitDone
    | Top | Return(r: Result) | Check | Branch | Cancel(ok: bool) | CancelDone
    | Drain | DrainReturn(r: Result) | Settle | Decide | Finish
    | Land(who: Who, t: Id, e: End) | Uncount | StoreDown | Act | Resubmit(ok: bool) | Recount | StoreUp
    | CancelRead | CancelWrite | Close

  // ---------------------------------------------------------------- the driver's own code

  // rtlsdr_cancel_async
  function CancelAsync(d: Dev): Dev { if d.status.Running? then d.(status := Canceling, asyncCancel := true) else d }

  // The callback after its decrement, apart from a new submission.
  function Acted(d: Dev, e: End): Dev {
    match e
    case Completed => d.(errors := 0)
    case Cancelled => d
    case _ =>
      var errors := d.errors + if e.Error? then 1 else 0;
      if errors >= d.bufNum || e.NoDevice? then d.(errors := errors, lost := true, status := Canceling)
      else d.(errors := errors)
  }

  // Its submission has failed.
  function Refused(d: Dev): Dev { CancelAsync(d.(lost := true)).(errors := 0) }

  // _rtlsdr_free_async_buffers, and what it gives back to the allocator.
  function FreeBuffers(d: Dev): Dev { d.(xfers := None) }

  function Frees(d: Dev): set<Id> { if d.outstanding == 0 then Own(d) else {} }

  // The transfers of the run that is on.
  function Own(d: Dev): set<Id> { if d.xfers.Some? then set x | x in d.xfers.value else {} }

  // ---------------------------------------------------------------- steps

  // The count is overwritten by one computed from an earlier reading v. What came between is lost.
  function Stored(s: State, v: int, count: int): State {
    s.(dev := s.dev.(outstanding := count), offset := s.offset + s.dev.outstanding - v)
  }

  // up to the event loop
  ghost predicate StartStep(s: State, e: Step, s': State) {
    match s.pc
    case Idle =>
      && e.Begin? && s.dev.status.Inactive? && !s.closed
      && s' == s.(dev := s.dev.(status := Running, asyncCancel := false), next := Inactive, pc := Starting)
    case Starting =>
      && e.Reset? && e.xs != [] && (forall x :: x in e.xs ==> x !in s.lib.used)
      && (forall i, j :: 0 <= i < j < |e.xs| ==> e.xs[i] != e.xs[j])
      && s' == s.(dev := s.dev.(outstanding := 0, bufNum := |e.xs|, xfers := Some(e.xs)),
                  lib := s.lib.(used := s.lib.used + set x | x in e.xs),
                  offset := |s.lib.linked| - Uncounted(s) + Overcounted(s), pc := Submitting(0))
    case Submitting(i) =>
      && s.dev.xfers.Some?
      && if i >= |s.dev.xfers.value| then e.SubmitDone? && s' == s.(pc := LoopTop)
         else && e.Submit?
              && if e.ok then s.dev.xfers.value[i] !in s.lib.linked
                              && s' == s.(lib := s.lib.(linked := s.lib.linked + {s.dev.xfers.value[i]}), pc := Counting(i))
                 else s' == s.(dev := s.dev.(status := Canceling), pc := LoopTop)
    case Counting(i) => e.Count? && s' == s.(pc := Storing(i, s.dev.outstanding))
    case Storing(i, v) => e.Store? && s' == Stored(s, v, v + 1).(pc := Submitting(i + 1))
    case _ => false
  }

  // Returning from libusb's event handling takes the thread out of its own callbacks first.
  predicate MayReturn(s: State) { s.cb.NoCallback? || s.cb.who.Foreign? }

  function AlreadyCancelled(s: State, i: nat): bool
    requires s.dev.xfers.Some? && i < |s.dev.xfers.value|
  {
    var t := s.dev.xfers.value[i];
    t in s.lib.ends && s.lib.ends[t].Cancelled?
  }

  // the event loop with its cancel branch
  ghost predicate LoopStep(s: State, e: Step, s': State) {
    match s.pc
    case LoopTop => e.Top? && s' == s.(pc := if s.dev.status.Inactive? then DrainTop(100) else Handling)
    case Handling =>
      && e.Return? && MayReturn(s)
      && s' == s.(pc := if e.r.Fine? then Checking else if e.r.Interrupted? then LoopTop else DrainTop(100))
    case Checking =>
      e.Check? && s' == s.(dev := if s.dev.lost && s.dev.status.Running? then s.dev.(status := Canceling) else s.dev, pc := Branching)
    case Branching =>
      && e.Branch?
      && if !s.dev.status.Canceling? then s' == s.(pc := LoopTop)
         else s' == s.(next := Inactive, pc := if s.dev.xfers.None? then DrainTop(100) else CancelLoop(0))
    case CancelLoop(i) =>
      && s.dev.xfers.Some?
      && if i >= |s.dev.xfers.value| then
           e.CancelDone? && s' == s.(pc := if s.dev.lost || s.next.Inactive? then LastEvents else LoopTop)
         else if AlreadyCancelled(s, i) then e == Cancel(false) && s' == s.(pc := CancelLoop(i + 1))
         else e.Cancel? && s' == s.(pc := CancelEvents(i, e.ok))
    case CancelEvents(i, ok) =>
      e.Return? && MayReturn(s) && s' == s.(next := if ok then Canceling else s.next, pc := CancelLoop(i + 1))
    case LastEvents => e.Return? && MayReturn(s) && s' == s.(pc := DrainTop(100))
    case _ => false
  }

  // the drain and the end
  ghost predicate EndStep(s: State, e: Step, s': State) {
    match s.pc
    case DrainTop(k) =>
      e.Drain? && s' == s.(pc := if s.dev.xfers.Some? && s.dev.outstanding != 0 && k > 0 then DrainLoop(k - 1, 0) else Settling)
    case DrainLoop(k, i) =>
      && s.dev.xfers.Some?
      && if i >= |s.dev.xfers.value| then e.CancelDone? && s' == s.(pc := DrainEvents(k))
         else && s' == s.(pc := DrainLoop(k, i + 1))
              && if AlreadyCancelled(s, i) then e == Cancel(false) else e.Cancel?
    case DrainEvents(k) =>
      e.DrainReturn? && MayReturn(s) && s' == s.(pc := if e.r.Broken? then Settling else DrainTop(k))
    case Settling => e.Settle? && s' == s.(next := if s.dev.outstanding == 0 then Inactive else s.next, pc := Deciding)
    case Deciding =>
      e.Decide? && s' == s.(dev := FreeBuffers(s.dev), lib := s.lib.(freed := s.lib.freed + Frees(s.dev)), pc := Finishing)
    case Finishing => e.Finish? && s' == s.(dev := s.dev.(status := s.next), pc := Idle)
    case _ => false
  }

  // libusb completes a transfer, and the callback runs
  ghost predicate CallbackStep(s: State, e: Step, s': State) {
    match s.cb
    case NoCallback =>
      && e.Land? && e.t in s.lib.linked && (e.who.Streamer? ==> InEvents(s.pc))
      && s' == s.(lib := s.lib.(linked := s.lib.linked - {e.t}, ends := s.lib.ends[e.t := e.e]), cb := Started(e.who, e.t, e.e))
    case Started(who, t, end) =>
      e.Uncount? && s' == s.(cb := Uncounting(who, t, end, s.dev.outstanding))
    case Uncounting(who, t, end, v) => e.StoreDown? && s' == Stored(s, v, v - 1).(cb := Counted(who, t, end))
    case Counted(who, t, end) =>
      && e.Act?
      && s' == if end.Completed? && s.dev.status.Running? then s.(cb := WillSubmit(who, t))
               else s.(dev := Acted(s.dev, end), cb := NoCallback)
    case WillSubmit(who, t) =>
      && e.Resubmit?
      && if e.ok then t !in s.lib.linked && s' == s.(lib := s.lib.(linked := s.lib.linked + {t}), cb := Submitted(who, t))
         else s' == s.(dev := Refused(s.dev), cb := NoCallback)
    case Submitted(who, t) =>
      e.Recount? && s' == s.(cb := Recounting(who, t, s.dev.outstanding))
    case Recounting(who, t, v) =>
      && e.StoreUp?
      && var u := Stored(s, v, v + 1);
         s' == u.(dev := u.dev.(errors := 0), cb := NoCallback)
  }

  // Other threads: a cancel in two steps, and a close after the stream has ended. The close takes
  // the events lock and unlinks what is left.
  ghost predicate OtherStep(s: State, e: Step, s': State) {
    match e
    case CancelRead => s.dev.status.Running? && s' == s.(cancels := s.cancels + 1)
    case CancelWrite => s.cancels > 0 && s' == s.(dev := s.dev.(status := Canceling, asyncCancel := true), cancels := s.cancels - 1)
    case Close => s.pc.Idle? && s.cb.NoCallback? && s' == s.(lib := s.lib.(linked := {}), closed := true)
    case _ => false
  }

  ghost predicate Next(s: State, e: Step, s': State) {
    StartStep(s, e, s') || LoopStep(s, e, s') || EndStep(s, e, s') || CallbackStep(s, e, s') || OtherStep(s, e, s')
  }

  ghost predicate Init(s: State) {
    s == State(Dev(Inactive, 0, false, 0, 0, None, false), Lib({}, {}, {}, map[]), Idle, Inactive, NoCallback, 0, false, 0)
  }

  ghost predicate Path(ss: seq<State>, es: seq<Step>) {
    |ss| == |es| + 1 && forall i :: 0 <= i < |es| ==> Next(ss[i], es[i], ss[i + 1])
  }

  ghost predicate Run(ss: seq<State>, es: seq<Step>) { Path(ss, es) && Init(ss[0]) }

  // ---------------------------------------------------------------- the count

  // Linked transfers that are not counted yet, and counted ones that are no longer linked.
  function Uncounted(s: State): int {
    (if s.pc.Counting? || s.pc.Storing? then 1 else 0) + (if s.cb.Submitted? || s.cb.Recounting? then 1 else 0)
  }

  function Overcounted(s: State): int { if s.cb.Started? || s.cb.Uncounting? then 1 else 0 }

  // While a run is on, the count is the number of linked transfers, but for those in between and
  // for how far it is off.
  predicate CountsLinked(s: State) {
    s.pc.Idle? || s.pc.Starting? || s.dev.outstanding == |s.lib.linked| - s.offset - Uncounted(s) + Overcounted(s)
  }

  lemma StartCounts(s: State, e: Step, s': State)
    requires CountsLinked(s) && StartStep(s, e, s')
    ensures CountsLinked(s')
  {
  }

  lemma LoopCounts(s: State, e: Step, s': State)
    requires CountsLinked(s) && LoopStep(s, e, s')
    ensures CountsLinked(s')
  {
    hide AlreadyCancelled;
  }

  lemma EndCounts(s: State, e: Step, s': State)
    requires CountsLinked(s) && EndStep(s, e, s')
    ensures CountsLinked(s')
  {
    hide Frees, AlreadyCancelled;
  }

  lemma LandCounts(s: State, e: Step, s': State)
    requires CountsLinked(s) && CallbackStep(s, e, s') && s.cb.NoCallback?
    ensures CountsLinked(s')
  {
    TakenOff(s.lib.linked, e.t);
  }

  lemma TakenOff(linked: set<Id>, t: Id)
    requires t in linked
    ensures |linked - {t}| == |linked| - 1
  {
    assert linked == (linked - {t}) + {t};
  }

  lemma StoresCount(s: State, e: Step, s': State)
    requires CountsLinked(s) && CallbackStep(s, e, s')
    requires s.cb.Started? || s.cb.Uncounting? || s.cb.Submitted? || s.cb.Recounting?
    ensures CountsLinked(s')
  {
  }

  lemma ActsCount(s: State, e: Step, s': State)
    requires CountsLinked(s) && CallbackStep(s, e, s') && (s.cb.Counted? || s.cb.WillSubmit?)
    ensures CountsLinked(s')
  {
  }

  lemma CallbackCounts(s: State, e: Step, s': State)
    requires CountsLinked(s) && CallbackStep(s, e, s')
    ensures CountsLinked(s')
  {
    hide CallbackStep, CountsLinked;
    match s.cb
    case NoCallback => LandCounts(s, e, s');
    case Counted(_, _, _) => ActsCount(s, e, s');
    case WillSubmit(_, _) => ActsCount(s, e, s');
    case _ => StoresCount(s, e, s');
  }

  lemma NextCounts(s: State, e: Step, s': State)
    requires CountsLinked(s) && Next(s, e, s')
    ensures CountsLinked(s')
  {
    hide StartStep, LoopStep, EndStep, CallbackStep;
    if StartStep(s, e, s') { StartCounts(s, e, s'); }
    else if LoopStep(s, e, s') { LoopCounts(s, e, s'); }
    else if EndStep(s, e, s') { EndCounts(s, e, s'); }
    else if CallbackStep(s, e, s') { CallbackCounts(s, e, s'); }
  }

  lemma {:induction false} RunCounts(ss: seq<State>, es: seq<Step>, n: nat)
    requires Run(ss, es) && n < |ss|
    ensures CountsLinked(ss[n])
  {
    if n > 0 {
      RunCounts(ss, es, n - 1);
      hide Next, CountsLinked;
      NextCounts(ss[n - 1], es[n - 1], ss[n]);
    }
  }
}
