// The life of a libusb device: who holds a reference, when it is destroyed, and what a close with
// transfers in flight leaves behind. libusb-andro/libusb/core.c (libusb_ref_device, libusb_unref_device,
// libusb_wrap_sys_device, do_close), io.c (submission and completion), os/linux_usbfs.c
// (op_wrap_sys_device).

module DeviceRefs {

  type Handle = nat
  type Id = nat

  // A transfer as libusb sees it. Between Linked and Flying the submitter holds its lock.
  datatype Stage =
    | Owned                 // the user's
    | Linked(h: Handle)     // on the flying list, in the backend's submit_transfer
    | Failed(h: Handle)     // submission failed; still on the list
    | Flagged(h: Handle)    // USBI_TRANSFER_IN_FLIGHT set; the reference not yet taken
    | Flying(h: Handle)
    | Ending(h: Handle)     // taken off the list by usbi_handle_transfer_completion; still flagged
    | Orphan                // taken off the list by do_close, dev_handle NULL; still flagged

  predicate Names(s: Stage, h: Handle) { !s.Owned? && !s.Orphan? && s.h == h }

  // Flagged with USBI_TRANSFER_IN_FLIGHT.
  predicate InFlight(s: Stage) { s.Flagged? || s.Flying? || s.Ending? || s.Orphan? }

  // callbacks: completions that have cleared the flag and not yet given the reference back.
  // outside: references of device lists and of the user.
  datatype State = State(
    refcnt: int, destroyed: bool,
    open: set<Handle>, closing: set<Handle>,
    transfers: map<Id, Stage>, callbacks: nat, outside: nat)

  datatype Step =
    | Ref | Unref                         // the user's
    | Open(h: Handle)                     // libusb_open on a device the caller holds
    | Link(t: Id, h: Handle) | Accept(t: Id) | Reject(t: Id) | TakeRef(t: Id) | UnlinkFailed(t: Id)
    | Complete(t: Id) | Clear(t: Id) | EndCallback
    | BeginClose(h: Handle) | EndClose(h: Handle)

  function RefDevice(s: State): State { s.(refcnt := s.refcnt + 1) }

  // libusb_unref_device
  function UnrefDevice(s: State): State {
    s.(refcnt := s.refcnt - 1, destroyed := s.destroyed || s.refcnt == 1)
  }

  function At(s: State, t: Id, g: Stage): State { s.(transfers := s.transfers[t := g]) }

  // The walk of do_close over the flying list.
  function Orphaned(ts: map<Id, Stage>, h: Handle): map<Id, Stage> {
    map t | t in ts :: if ts[t].Flying? && ts[t].h == h then Orphan else ts[t]
  }

  // A caller must hold the device to name it, and does not use a handle while closing it. A close
  // waits for the events lock, so no completion is under way.
  ghost predicate Next(s: State, e: Step, s': State) {
    match e
    case Ref => (s.outside > 0 || s.open != {}) && s' == RefDevice(s).(outside := s.outside + 1)
    case Unref => s.outside > 0 && s' == UnrefDevice(s.(outside := s.outside - 1))
    case Open(h) =>
      && (s.outside > 0 || s.open != {}) && h !in s.open + s.closing
      && s' == RefDevice(s).(open := s.open + {h})
    case Link(t, h) => t in s.transfers && s.transfers[t].Owned? && h in s.open && s' == At(s, t, Linked(h))
    case Accept(t) => t in s.transfers && s.transfers[t].Linked? && s' == At(s, t, Flagged(s.transfers[t].h))
    case Reject(t) => t in s.transfers && s.transfers[t].Linked? && s' == At(s, t, Failed(s.transfers[t].h))
    case TakeRef(t) => t in s.transfers && s.transfers[t].Flagged? && s' == At(RefDevice(s), t, Flying(s.transfers[t].h))
    case UnlinkFailed(t) => t in s.transfers && s.transfers[t].Failed? && s' == At(s, t, Owned)
    case Complete(t) => t in s.transfers && s.transfers[t].Flying? && s' == At(s, t, Ending(s.transfers[t].h))
    case Clear(t) => t in s.transfers && s.transfers[t].Ending? && s' == At(s.(callbacks := s.callbacks + 1), t, Owned)
    case EndCallback => s.callbacks > 0 && s' == UnrefDevice(s.(callbacks := s.callbacks - 1))
    case BeginClose(h) =>
      && h in s.open && s.callbacks == 0
      && (forall t :: t in s.transfers && Names(s.transfers[t], h) ==> s.transfers[t].Flying?)
      && s' == s.(open := s.open - {h}, closing := s.closing + {h}, transfers := Orphaned(s.transfers, h))
    case EndClose(h) => h in s.closing && s' == UnrefDevice(s.(closing := s.closing - {h}))
  }

  // libusb_wrap_sys_device: usbi_alloc_device makes the one reference and the handle takes it
  // over; if anything fails it is given back.
  ghost predicate Init(s: State) {
    && s.closing == {} && s.callbacks == 0 && s.outside == 0
    && (forall t :: t in s.transfers ==> s.transfers[t].Owned?)
    && (|| (exists h :: s.open == {h} && s.refcnt == 1 && !s.destroyed)
        || (s.open == {} && s.refcnt == 0 && s.destroyed))
  }

  ghost predicate Run(ss: seq<State>, es: seq<Step>) {
    |ss| == |es| + 1 && Init(ss[0]) && forall i :: 0 <= i < |es| ==> Next(ss[i], es[i], ss[i + 1])
  }

  // ---------------------------------------------------------------- the invariant

  // The transfers that hold a reference to the device.
  function Holding(ts: map<Id, Stage>): set<Id> { set t | t in ts && InFlight(ts[t]) && !ts[t].Flagged? }

  ghost predicate Inv(s: State) {
    && s.open !! s.closing
    && s.refcnt == |s.open| + |s.closing| + |Holding(s.transfers)| + s.callbacks + s.outside
    && (s.destroyed <==> s.refcnt == 0)
    && (forall t :: t in s.transfers ==> UsesOpen(s.transfers[t], s.open))
  }

  predicate UsesOpen(g: Stage, open: set<Handle>) { g.Owned? || g.Orphan? || g.h in open }

  lemma StageChanges(ts: map<Id, Stage>, t: Id, g: Stage)
    requires t in ts
    ensures var was, now := InFlight(ts[t]) && !ts[t].Flagged?, InFlight(g) && !g.Flagged?;
            |Holding(ts[t := g])| == |Holding(ts)| + (if now then 1 else 0) - (if was then 1 else 0)
  {
    var a, b := Holding(ts), Holding(ts[t := g]);
    assert a - {t} == b - {t};
    assert |a - {t}| == |a| - if t in a then 1 else 0;
    assert |b - {t}| == |b| - if t in b then 1 else 0;
  }

  // A step that moves one transfer and gives and takes references to match.
  lemma StageKeeps(s: State, t: Id, g: Stage, s': State)
    requires Inv(s) && t in s.transfers && s'.transfers == s.transfers[t := g]
    requires s'.open == s.open && s'.closing == s.closing && s'.outside == s.outside
    requires UsesOpen(g, s.open)
    requires var was, now := InFlight(s.transfers[t]) && !s.transfers[t].Flagged?, InFlight(g) && !g.Flagged?;
             s'.refcnt - s'.callbacks == s.refcnt - s.callbacks + (if now then 1 else 0) - (if was then 1 else 0)
    requires s'.destroyed == s.destroyed && (s.refcnt == 0 <==> s'.refcnt == 0)
    ensures Inv(s')
  {
    StageChanges(s.transfers, t, g);
    hide InFlight;
  }

  lemma NamedHandleCounts(s: State, t: Id)
    requires Inv(s) && t in s.transfers && !s.transfers[t].Owned? && !s.transfers[t].Orphan?
    ensures s.transfers[t].h in s.open && s.refcnt > 0
  {
    assert UsesOpen(s.transfers[t], s.open);
  }

  lemma TransferStepKeeps(s: State, e: Step, s': State)
    requires Inv(s) && Next(s, e, s')
    requires e.Link? || e.Accept? || e.Reject? || e.TakeRef? || e.UnlinkFailed? || e.Complete? || e.Clear?
    ensures Inv(s')
  {
    if !e.Link? { NamedHandleCounts(s, e.t); }
    hide Inv;
    StageKeeps(s, e.t, s'.transfers[e.t], s');
  }

  lemma CountStepKeeps(s: State, e: Step, s': State)
    requires Inv(s) && Next(s, e, s') && (e.Ref? || e.Unref? || e.EndCallback?)
    ensures Inv(s')
  {
    assert s'.transfers == s.transfers;
    hide Holding, Names, Orphaned, UsesOpen;
  }

  lemma OpenKeeps(s: State, h: Handle, s': State)
    requires Inv(s) && Next(s, Open(h), s')
    ensures Inv(s')
  {
    hide Holding, Names, Orphaned, InFlight;
    assert s'.open == s.open + {h} && |s'.open| == |s.open| + 1;
    forall t | t in s'.transfers ensures UsesOpen(s'.transfers[t], s'.open) {
      assert UsesOpen(s.transfers[t], s.open);
    }
  }

  lemma EndCloseKeeps(s: State, h: Handle, s': State)
    requires Inv(s) && Next(s, EndClose(h), s')
    ensures Inv(s')
  {
    hide Holding, Names, Orphaned, UsesOpen, InFlight;
    assert s.closing == s'.closing + {h} && |s.closing| == |s'.closing| + 1;
  }

  lemma CloseKeeps(s: State, h: Handle, s': State)
    requires Inv(s) && Next(s, BeginClose(h), s')
    ensures Inv(s')
  {
    OrphansStillHold(s.transfers, h);
    var rest := s.open - {h};
    assert s.open == rest + {h} && |s.open| == |rest| + 1 && |s'.closing| == |s.closing| + 1;
    forall t | t in s'.transfers ensures UsesOpen(s'.transfers[t], s'.open) {
      assert UsesOpen(s.transfers[t], s.open) && (Names(s.transfers[t], h) ==> s.transfers[t].Flying?);
    }
    hide Holding;
  }

  lemma OrphansStillHold(ts: map<Id, Stage>, h: Handle)
    ensures Holding(Orphaned(ts, h)) == Holding(ts)
  {
  }

  lemma NextKeeps(s: State, e: Step, s': State)
    requires Inv(s) && Next(s, e, s')
    ensures Inv(s')
  {
    hide Next, Inv;
    if e.BeginClose? {
      CloseKeeps(s, e.h, s');
    } else if e.Ref? || e.Unref? || e.EndCallback? {
      CountStepKeeps(s, e, s');
    } else if e.Open? {
      OpenKeeps(s, e.h, s');
    } else if e.EndClose? {
      EndCloseKeeps(s, e.h, s');
    } else {
      TransferStepKeeps(s, e, s');
    }
  }

  lemma {:induction false} RunKeeps(ss: seq<State>, es: seq<Step>, n: nat)
    requires Run(ss, es) && n < |ss|
    ensures Inv(ss[n])
  {
    if n == 0 {
      assert Holding(ss[0].transfers) == {};
    } else {
      RunKeeps(ss, es, n - 1);
      hide Inv;
      hide Next;
      NextKeeps(ss[n - 1], es[n - 1], ss[n]);
    }
  }

  // ---------------------------------------------------------------- results

  // The transfers flagged IN_FLIGHT, apart from those whose reference is about to be taken.
  function FlaggedSet(ts: map<Id, Stage>): set<Id> { set t | t in ts && InFlight(ts[t]) }

  function AboutToRef(ts: map<Id, Stage>): set<Id> { set t | t in ts && ts[t].Flagged? }

  // The count is what holds the device: handles, flagged transfers whether or not a close has
  // unlinked them, callbacks under way, and references from outside.
  lemma ReferencesConserved(ss: seq<State>, es: seq<Step>, n: nat)
    requires Run(ss, es) && n < |ss|
    ensures var s := ss[n];
            s.refcnt + |AboutToRef(s.transfers)|
            == |s.open| + |s.closing| + |FlaggedSet(s.transfers)| + s.callbacks + s.outside
  {
    RunKeeps(ss, es, n);
    var ts := ss[n].transfers;
    assert FlaggedSet(ts) == Holding(ts) + AboutToRef(ts);
    assert Holding(ts) !! AboutToRef(ts);
  }

  // The device is destroyed exactly when nothing holds it any more.
  lemma DestroyedWithTheLast(ss: seq<State>, es: seq<Step>, n: nat)
    requires Run(ss, es) && n < |ss|
    ensures var s := ss[n];
            s.destroyed <==> s.open == {} && s.closing == {} && FlaggedSet(s.transfers) == {} && s.callbacks == 0 && s.outside == 0
  {
    RunKeeps(ss, es, n);
    var s := ss[n];
    if s.destroyed {
      assert s.open == {} && s.closing == {} && Holding(s.transfers) == {};
      forall t | t in s.transfers ensures !InFlight(s.transfers[t]) {
        assert t !in Holding(s.transfers);
        if s.transfers[t].Flagged? { NamedHandleCounts(s, t); }
      }
    } else if s.open == {} && FlaggedSet(s.transfers) == {} {
      assert Holding(s.transfers) == {};
    }
  }

  // No transfer names a handle of a destroyed device, and the handle it names is open.
  lemma NeverDestroyedWhileNamed(ss: seq<State>, es: seq<Step>, n: nat, t: Id, h: Handle)
    requires Run(ss, es) && n < |ss| && t in ss[n].transfers && Names(ss[n].transfers[t], h)
    ensures !ss[n].destroyed && h in ss[n].open
  {
    RunKeeps(ss, es, n);
    assert UsesOpen(ss[n].transfers[t], ss[n].open);
  }

  // A transfer that a close has unlinked keeps its reference: from then on the device is never
  // destroyed, whatever is closed or released afterwards.
  lemma {:induction false} OrphanPinsTheDevice(ss: seq<State>, es: seq<Step>, m: nat, n: nat, t: Id)
    requires Run(ss, es) && m <= n < |ss| && t in ss[m].transfers && ss[m].transfers[t].Orphan?
    ensures t in ss[n].transfers && ss[n].transfers[t].Orphan? && !ss[n].destroyed
  {
    if m < n {
      OrphanPinsTheDevice(ss, es, m, n - 1, t);
      OrphanStays(ss[n - 1], es[n - 1], ss[n], t);
    }
    RunKeeps(ss, es, n);
    hide Run;
    assert t in Holding(ss[n].transfers);
  }

  lemma OrphanStays(s: State, e: Step, s': State, t: Id)
    requires Next(s, e, s') && t in s.transfers && s.transfers[t].Orphan?
    ensures t in s'.transfers && s'.transfers[t].Orphan?
  {
  }

  // A close leaves nothing on the list that names the handle and gives no reference back for it. There
  // is an orphan afterwards, which pins the device, if and only if there was one before or a transfer
  // was in flight on the handle.
  lemma CloseUnlinksAll(s: State, h: Handle, s': State)
    requires Inv(s) && Next(s, BeginClose(h), s')
    ensures forall t :: t in s'.transfers ==> !Names(s'.transfers[t], h)
    ensures forall t :: t in s.transfers && !Names(s.transfers[t], h) ==> s'.transfers[t] == s.transfers[t]
    ensures forall t :: t in s.transfers && Names(s.transfers[t], h) ==> s'.transfers[t].Orphan?
    ensures s'.refcnt == s.refcnt
    ensures (exists t :: t in s'.transfers && s'.transfers[t].Orphan?) <==>
            exists t :: t in s.transfers && (s.transfers[t].Orphan? || Names(s.transfers[t], h))
  {
    assert forall t :: t in s.transfers <==> t in s'.transfers;
    if t :| t in s.transfers && (s.transfers[t].Orphan? || Names(s.transfers[t], h)) {
      assert s'.transfers[t].Orphan?;
    }
  }

  // ---------------------------------------------------------------- the count in place

  class Device {
    var refcnt: int
    var destroyed: bool
    ghost var holders: multiset<nat>   // one for each reference that has not been given back

    ghost predicate Valid()
      reads this
    {
      refcnt == |holders| && (destroyed <==> holders == multiset{})
    }

    // usbi_alloc_device
    constructor (ghost holder: nat)
      ensures Valid() && holders == multiset{holder}
    {
      refcnt, destroyed, holders := 1, false, multiset{holder};
    }

    // libusb_ref_device
    method Ref(ghost holder: nat)
      requires Valid() && !destroyed
      modifies this
      ensures Valid() && !destroyed && holders == old(holders) + multiset{holder}
    {
      refcnt := refcnt + 1;
      holders := holders + multiset{holder};
    }

    // libusb_unref_device: the device goes with its last holder, whatever the order
    method Unref(ghost holder: nat)
      requires Valid() && holder in holders
      modifies this
      ensures Valid() && holders == old(holders) - multiset{holder}
      ensures destroyed <==> old(holders) == multiset{holder}
    {
      ghost var was := holders;
      refcnt := refcnt - 1;
      holders := holders - multiset{holder};
      assert was == holders + multiset{holder};
      if refcnt == 0 { destroyed := true; }
    }
  }
}
