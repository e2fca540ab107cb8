// One transfer, cancelled by its user, by its timeout, or by both at once, while its device may be
// unplugged and its handle closed: libusb_submit_transfer, libusb_cancel_transfer, handle_timeout,
// usbi_handle_disconnect and the completion of the transfer in libusb-andro/libusb/io.c, and do_close
// in core.c, as threads that interleave wherever a lock is taken or released. Three locks matter:
// events_lock, flying_transfers_lock and the transfer's own.

module CancelRace {
  import opened Wrappers

  type Tid = nat

  datatype Who = User | Timeout

  // The end of a transfer: as its URBs came back, by cancellation, or by usbi_handle_disconnect.
  datatype Status = Other | Cancelled | TimedOut | Disconnected

  datatype Pc =
    | Idle
    // libusb_submit_transfer
    | SubmitFly            // flying; wants the transfer's lock
    | SubmitReset          // flying and transfer; about to reset the flags and link
    | SubmitUrbs           // transfer; in the backend's submit_transfer
    | SubmitFailed         // wants flying, to unlink again
    // libusb_cancel_transfer, called by the user
    | UserWant             // wants the transfer's lock
    | UserCancel           // transfer
    // handle_timeouts
    | TimeoutScan          // flying
    | TimeoutWant          // flying; TIMEOUT_HANDLED is set; wants the transfer's lock
    | TimeoutCancel        // flying and transfer
    | TimeoutMark(ok: bool)   // flying; the cancel has returned
    // usbi_handle_disconnect
    | DiscScan             // flying
    | DiscLook             // flying and transfer
    | DiscPicked(found: bool)   // flying
    | DiscFound            // wants the transfer's lock
    | DiscClear            // transfer
    // do_close
    | CloseScan            // flying
    | CloseLook            // flying and transfer
    | CloseUnlink          // flying
    // the event handler, after the last URB
    | AskTimedOut          // usbi_handle_transfer_cancellation, wants flying
    | ReadTimedOut         // flying
    | Unlink(status: Status)   // usbi_handle_transfer_completion, wants flying
    | Clear(status: Status)    // wants the transfer's lock
    | Report(status: Status)   // about to call back

  predicate HoldsFlying(p: Pc) {
    || p.SubmitFly? || p.SubmitReset? || p.TimeoutScan? || p.TimeoutWant? || p.TimeoutCancel? || p.TimeoutMark?
    || p.ReadTimedOut? || p.DiscScan? || p.DiscLook? || p.DiscPicked? || Closing(p)
  }

  predicate HoldsTransfer(p: Pc) {
    p.SubmitReset? || p.SubmitUrbs? || p.UserCancel? || p.TimeoutCancel? || p.DiscLook? || p.DiscClear? || p.CloseLook?
  }

  predicate Closing(p: Pc) { p.CloseScan? || p.CloseLook? || p.CloseUnlink? }

  predicate Submitting(p: Pc) { p.SubmitFly? || p.SubmitReset? || p.SubmitUrbs? || p.SubmitFailed? }

  // After the last URB was reaped and before the callback.
  predicate Ending(p: Pc) { p.AskTimedOut? || p.ReadTimedOut? || p.Unlink? || p.Clear? || p.Report? }

  predicate Owns(p: Pc) { Submitting(p) || Ending(p) }

  // Only the holder of events_lock does this. It may submit and cancel in between, from a callback.
  predicate Handling(p: Pc) {
    Ending(p) || Closing(p) || p.DiscScan? || p.DiscLook? || p.DiscPicked? || p.DiscFound? || p.DiscClear?
  }

  // reap_action; Early and Failed: URBs discarded or a real error. A cancel in place of a failure is told
  // apart for the proof.
  datatype Action = Normal | Early | Failed | CancelledAction(failedBefore: bool)

  // A URB has really failed.
  predicate HasFailed(a: Action) { a.Failed? || (a.CancelledAction? && a.failedBefore) }

  // closed: its handle has been closed. lost: usbi_handle_disconnect has picked it.
  datatype Transfer = Transfer(
    linked: bool, inFlight: bool, cancelling: bool, handled: bool, timedOut: bool,
    urbs: bool, action: Action, closed: bool, lost: bool)

  const NEW := Transfer(false, false, false, false, false, false, Normal, false, false)

  // A callback: its status, whose cancel had succeeded, whether a URB had really failed, whether the
  // disconnect came before its last URB, and whether the transfer is a bulk transfer.
  datatype End = End(status: Status, winner: Option<Who>, failed: bool, lost: bool, bulk: bool)

  // bulk: a bulk transfer, not an interrupt transfer. The last line is kept for the proof. owner: who
  // submits or ends the transfer; winner: whose cancel succeeded since the last submission; ends: the
  // callbacks.
  datatype State = State(
    x: Transfer, bulk: bool, flying: Option<Tid>, lock: Option<Tid>, events: Option<Tid>, pc: map<Tid, Pc>,
    owner: Option<Tid>, winner: Option<Who>, accepted: nat, ends: seq<End>)

  // ---------------------------------------------------------------- steps

  // A step moves one thread, which takes the locks its new place needs, if they are free, and
  // gives back those it no longer needs.
  ghost predicate Moves(s: State, t: Tid, s': State)
    requires t in s.pc
  {
    && t in s'.pc && s'.pc == s.pc[t := s'.pc[t]]
    && LockShape(HoldsFlying(s.pc[t]), s.flying, t, HoldsFlying(s'.pc[t]), s'.flying)
    && LockShape(HoldsTransfer(s.pc[t]), s.lock, t, HoldsTransfer(s'.pc[t]), s'.lock)
    && LockShape(Owns(s.pc[t]), s.owner, t, Owns(s'.pc[t]), s'.owner)
    && (s'.events == s.events || (s.pc[t].Idle? && s'.pc[t].Idle?))
    && (Handling(s'.pc[t]) ==> s.events == Some(t))
  }

  predicate Changes(s: State, x: Transfer, winner: Option<Who>, s': State) {
    s'.x == x && s'.bulk == s.bulk && s'.winner == winner && s'.accepted == s.accepted && s'.ends == s.ends
  }

  predicate Same(s: State, s': State) { Changes(s, s.x, s.winner, s') }

  // A thread takes events_lock, or gives it back.
  predicate EventsRule(s: State, t: Tid, p: Pc, p': Pc, s': State) {
    && p.Idle? && p'.Idle? && Same(s, s')
    && ((s.events == None && s'.events == Some(t)) || (s.events == Some(t) && s'.events == None))
  }

  // A transfer is submitted between callbacks, by one thread at a time, and on an open handle.
  predicate SubmitRule(s: State, p: Pc, p': Pc, s': State) {
    || (p.Idle? && p' == SubmitFly && !s.x.inFlight && !s.x.closed && Same(s, s'))
    || (p.SubmitFly? && p' == SubmitReset && Same(s, s'))
    || (p.SubmitReset? && p' == SubmitUrbs && Changes(s, NEW.(linked := true), None, s'))
    || (p.SubmitUrbs? && p' == SubmitFailed && Same(s, s'))
    || (&& p.SubmitUrbs? && p' == Idle && s'.x == s.x.(urbs := true, inFlight := true) && s'.bulk == s.bulk
        && s'.winner == s.winner && s'.accepted == s.accepted + 1 && s'.ends == s.ends)
    || (p.SubmitFailed? && p' == Idle && s.flying == None && Changes(s, s.x.(linked := false), s.winner, s'))
  }

  // libusb_cancel_transfer under the lock; discarded says whether the backend discarded the URBs.
  // A failing cancel is marked too, so it is not tried again. Only a bulk transfer keeps a failure.
  function CancelResult(x: Transfer, bulk: bool, discarded: bool): (Transfer, bool) {
    if !x.inFlight || x.cancelling then (x, false)
    else if !x.urbs || !discarded then (x.(cancelling := true), false)
    else (x.(cancelling := true, action := if bulk && x.action.Failed? then Failed else CancelledAction(HasFailed(x.action))), true)
  }

  predicate CancelBy(s: State, w: Who, discarded: bool, s': State) {
    Changes(s, CancelResult(s.x, s.bulk, discarded).0, if CancelResult(s.x, s.bulk, discarded).1 then Some(w) else s.winner, s')
  }

  predicate UserRule(s: State, p: Pc, p': Pc, s': State) {
    match p
    case Idle => p' == UserWant && Same(s, s')
    case UserWant => p' == UserCancel && Same(s, s')
    case UserCancel => p' == Idle && (CancelBy(s, User, true, s') || CancelBy(s, User, false, s'))
    case _ => false
  }

  predicate TimeoutRule(s: State, p: Pc, p': Pc, s': State) {
    || (p.Idle? && p' == TimeoutScan && Same(s, s'))
    || (p.TimeoutScan? && p' == Idle && Same(s, s'))       // not expired, or no more transfers
    || (&& p.TimeoutScan? && p' == TimeoutWant && s.x.linked && !s.x.handled
        && Changes(s, s.x.(handled := true), s.winner, s'))
    || (p.TimeoutWant? && p' == TimeoutCancel && Same(s, s'))
    || (p.TimeoutCancel? && (TimeoutTries(s, true, p', s') || TimeoutTries(s, false, p', s')))
    || (p.TimeoutMark? && p' == TimeoutScan && Changes(s, s.x.(timedOut := p.ok || s.x.timedOut), s.winner, s'))
  }

  predicate TimeoutTries(s: State, discarded: bool, p': Pc, s': State) {
    p' == TimeoutMark(CancelResult(s.x, s.bulk, discarded).1) && CancelBy(s, Timeout, discarded, s')
  }

  // The walk over the list looks at the transfer under its lock, gives back both, and takes the
  // transfer's again to clear its URBs.
  predicate DisconnectRule(s: State, p: Pc, p': Pc, s': State) {
    match p
    case Idle => p' == DiscScan && Same(s, s')
    case DiscScan => p' == (if s.x.linked then DiscLook else Idle) && Same(s, s')
    case DiscLook => p' == DiscPicked(s.x.inFlight) && Same(s, s')
    case DiscPicked(found) => p' == (if found then DiscFound else Idle) && Same(s, s')
    case DiscFound => p' == DiscClear && Same(s, s')
    case DiscClear => p' == Unlink(Disconnected) && Changes(s, s.x.(urbs := false, lost := true), s.winner, s')
    case _ => false
  }

  // The walk of a close, which nobody calls while the transfer is being submitted. It takes the
  // transfer's lock to look whether it must complain, and unlinks it in any case.
  predicate CloseRule(s: State, p: Pc, p': Pc, s': State) {
    || (p.Idle? && p' == CloseScan && s.owner == None && Same(s, s'))
    || (p.CloseScan? && s.x.linked && p' == CloseLook && Same(s, s'))
    || (p.CloseScan? && !s.x.linked && p' == Idle && Changes(s, s.x.(closed := true), s.winner, s'))
    || (p.CloseLook? && p' == CloseUnlink && Same(s, s'))
    || (p.CloseUnlink? && p' == Idle && Changes(s, s.x.(linked := false, closed := true), s.winner, s'))
  }

  function EndOf(st: Status, winner: Option<Who>, x: Transfer, bulk: bool): End {
    End(st, winner, HasFailed(x.action), x.lost, bulk)
  }

  // Reaping holds the transfer's lock while it looks at one URB; the first two cases are URBs that
  // are not the last.
  predicate ReapRule(s: State, handler: bool, p: Pc, p': Pc, s': State) {
    match p
    case Idle =>
      && handler && s.lock == None && s.x.urbs && !s.x.closed
      && (|| (p' == Idle && s.x.action.Normal? && Changes(s, s.x.(action := Early), s.winner, s'))
          || (p' == Idle && s.x.action.Normal? && Changes(s, s.x.(action := Failed), s.winner, s'))
          || (&& p' == (if s.x.action.CancelledAction? then AskTimedOut else Unlink(Other))
              && Changes(s, s.x.(urbs := false), s.winner, s')))
    case AskTimedOut => p' == ReadTimedOut && Same(s, s')
    case ReadTimedOut => p' == Unlink(if s.x.timedOut then TimedOut else Cancelled) && Same(s, s')
    case Unlink(st) => p' == Clear(st) && s.flying == None && Changes(s, s.x.(linked := false), s.winner, s')
    case Clear(st) => p' == Report(st) && s.lock == None && Changes(s, s.x.(inFlight := false), s.winner, s')
    case Report(st) =>
      && p' == Idle && s'.x == s.x && s'.bulk == s.bulk && s'.winner == s.winner
      && s'.accepted == s.accepted && s'.ends == s.ends + [EndOf(st, s.winner, s.x, s.bulk)]
    case _ => false
  }

  ghost predicate Next(s: State, t: Tid, s': State) {
    && t in s.pc && Moves(s, t, s')
    && (EventsRule(s, t, s.pc[t], s'.pc[t], s') || (s'.events == s.events && Rule(s, t, s.pc[t], s'.pc[t], s')))
  }

  predicate Rule(s: State, t: Tid, p: Pc, p': Pc, s': State) {
    || SubmitRule(s, p, p', s') || UserRule(s, p, p', s') || TimeoutRule(s, p, p', s')
    || DisconnectRule(s, p, p', s') || CloseRule(s, p, p', s') || ReapRule(s, s.events == Some(t), p, p', s')
  }

  ghost predicate Init(s: State) {
    && s.x == NEW
    && s.flying == None && s.lock == None && s.events == None
    && s.owner == None && s.winner == None && s.accepted == 0 && s.ends == []
    && forall t :: t in s.pc ==> s.pc[t] == Idle
  }

  ghost predicate Run(ss: seq<State>, ts: seq<Tid>) {
    |ss| == |ts| + 1 && Init(ss[0]) && forall i :: 0 <= i < |ts| ==> Next(ss[i], ts[i], ss[i + 1])
  }

  // ---------------------------------------------------------------- the invariant

  ghost predicate LocksHeld(s: State) {
    && (forall t :: t in s.pc ==> (HoldsFlying(s.pc[t]) <==> s.flying == Some(t)))
    && (forall t :: t in s.pc ==> (HoldsTransfer(s.pc[t]) <==> s.lock == Some(t)))
    && (forall t :: t in s.pc ==> (Owns(s.pc[t]) <==> s.owner == Some(t)))
    && (s.flying.Some? ==> s.flying.value in s.pc)
    && (s.lock.Some? ==> s.lock.value in s.pc)
    && (s.owner.Some? ==> s.owner.value in s.pc)
    && (s.events.Some? ==> s.events.value in s.pc)
    && (forall t :: t in s.pc && Handling(s.pc[t]) ==> s.events == Some(t))
  }

  // Where the thread is that holds a lock, or that owns the transfer.
  function Holder(pc: map<Tid, Pc>, l: Option<Tid>): Pc {
    if l.Some? && l.value in pc then pc[l.value] else Idle
  }

  // Where the transfer is: with its user, with its owner, or in the kernel.
  predicate OneOwner(x: Transfer, o: Pc) {
    && (Submitting(o) ==> !x.inFlight && !x.urbs && !x.closed)
    && (o.SubmitUrbs? ==> x.linked && !x.lost)
    && (Ending(o) ==> !x.urbs && !x.closed && (x.inFlight <==> !o.Report?))
    && (x.urbs ==> x.inFlight && (x.linked || x.closed) && !x.lost)
    && (x.inFlight && !x.urbs ==> Ending(o))
    && (x.closed ==> !x.linked)
  }

  // What the holder of events_lock can rely on.
  predicate HandlerKnows(x: Transfer, o: Pc, e: Pc) {
    && (Ending(o) ==> e == o)
    && (Closing(e) ==> !Owns(o))
    && (e.DiscLook? ==> x.linked)
    && (e == DiscPicked(true) || e.DiscFound? || e.DiscClear? ==> x.inFlight && x.urbs && !x.closed)
  }

  // What the action says about cancels and failures.
  predicate OneAction(x: Transfer, bulk: bool, winner: Option<Who>) {
    && (winner.Some? ==> x.cancelling)
    && (if x.action.Failed? then true else x.action.CancelledAction? <==> winner.Some?)
    && (bulk ==> x.action != CancelledAction(true)) && (x.action.Failed? && !bulk ==> winner == None)
  }

  // While the timeout's success is not yet noted, its thread holds flying_transfers_lock.
  predicate Noted(x: Transfer, winner: Option<Who>, f: Pc) {
    && (x.timedOut || f == TimeoutMark(true) ==> winner == Some(Timeout))
    && (winner == Some(Timeout) && !x.timedOut ==> f == TimeoutMark(true))
  }

  predicate OneWinner(x: Transfer, bulk: bool, winner: Option<Who>, f: Pc) {
    OneAction(x, bulk, winner) && Noted(x, winner, f)
  }

  // The status a transfer should end with.
  // kept: a failure that no cancel replaces.
  function Verdict(winner: Option<Who>, kept: bool, lost: bool): Status {
    if lost then Disconnected else if kept then Other
    else match winner case None => Other case Some(User) => Cancelled case Some(Timeout) => TimedOut
  }

  predicate EndsTruly(x: Transfer, o: Pc, winner: Option<Who>) {
    match o
    case AskTimedOut | ReadTimedOut => x.action.CancelledAction? && !x.lost
    case Unlink(st) => st == Verdict(winner, x.action.Failed?, x.lost)
    case Clear(st) => st == Verdict(winner, x.action.Failed?, x.lost)
    case Report(st) => st == Verdict(winner, x.action.Failed?, x.lost)
    case _ => true
  }

  predicate Facts(s: State, f: Pc, o: Pc, e: Pc) {
    OneOwner(s.x, o) && OneWinner(s.x, s.bulk, s.winner, f) && EndsTruly(s.x, o, s.winner) && HandlerKnows(s.x, o, e)
  }

  // One callback for each accepted submission, each with a true status.
  ghost predicate CallsBack(s: State, o: Pc) {
    && s.accepted == |s.ends| + (if s.x.inFlight || o.Report? then 1 else 0)
    && forall e :: e in s.ends ==> e.status == Verdict(e.winner, e.failed && e.bulk, e.lost)
  }

  ghost predicate Inv(s: State) {
    && LocksHeld(s) && CallsBack(s, Holder(s.pc, s.owner))
    && Facts(s, Holder(s.pc, s.flying), Holder(s.pc, s.owner), Holder(s.pc, s.events))
  }

  // ---------------------------------------------------------------- preservation

  predicate HolderMoves(s: State, handler: bool, p: Pc, p': Pc, f: Pc, o: Pc, e: Pc, f': Pc, o': Pc, e': Pc) {
    && f' == (if HoldsFlying(p') then p' else if HoldsFlying(p) then Idle else f)
    && o' == (if Owns(p') then p' else if Owns(p) then Idle else o)
    && (if HoldsFlying(p) then f == p else HoldsFlying(p') || s.flying == None ==> f == Idle)
    && (if Owns(p) then o == p else Owns(p') ==> o == Idle)
    && (s.owner == None ==> o == Idle)
    && (if handler then e == p && e' == p' else e' == e && !Handling(p) && !Handling(p'))
    && (HoldsFlying(e) ==> f == e)
  }

  lemma MovesKeepLocks(s: State, t: Tid, s': State)
    requires LocksHeld(s) && t in s.pc && Moves(s, t, s') && s'.events == s.events
    ensures LocksHeld(s')
  {
  }

  lemma HoldersMove(s: State, t: Tid, s': State)
    requires LocksHeld(s) && t in s.pc && Moves(s, t, s') && s'.events == s.events
    ensures HolderMoves(s, s.events == Some(t), s.pc[t], s'.pc[t],
                        Holder(s.pc, s.flying), Holder(s.pc, s.owner), Holder(s.pc, s.events),
                        Holder(s'.pc, s'.flying), Holder(s'.pc, s'.owner), Holder(s'.pc, s'.events))
  {
    hide HoldsTransfer;
  }

  // The submitter owns the transfer all the way.
  lemma SubmitMoves(s: State, handler: bool, p: Pc, p': Pc, s': State, f: Pc, o: Pc, e: Pc, f': Pc, o': Pc, e': Pc)
    requires SubmitRule(s, p, p', s')
    requires HolderMoves(s, handler, p, p', f, o, e, f', o', e')
    ensures o == p && o' == p' && !Ending(o) && !Ending(o')
    ensures f' == f || (!f.TimeoutMark? && !f'.TimeoutMark?)
    ensures e' == e || (!Handling(e) && !Handling(e'))
    ensures p.Idle? || p.SubmitFailed? ==> !HoldsFlying(e)
  {
    hide Changes;
  }

  lemma SubmitCounts(s: State, handler: bool, p: Pc, p': Pc, s': State, f: Pc, o: Pc, e: Pc, f': Pc, o': Pc, e': Pc)
    requires SubmitRule(s, p, p', s') && OneOwner(s.x, o) && CallsBack(s, o)
    requires HolderMoves(s, handler, p, p', f, o, e, f', o', e')
    ensures CallsBack(s', o')
  {
    SubmitMoves(s, handler, p, p', s', f, o, e, f', o', e');
    hide HolderMoves;
  }

  lemma SubmitKeepsOwner(s: State, handler: bool, p: Pc, p': Pc, s': State, f: Pc, o: Pc, e: Pc, f': Pc, o': Pc, e': Pc)
    requires SubmitRule(s, p, p', s') && OneOwner(s.x, o)
    requires HolderMoves(s, handler, p, p', f, o, e, f', o', e')
    ensures OneOwner(s'.x, o')
  {
    SubmitMoves(s, handler, p, p', s', f, o, e, f', o', e');
    hide HolderMoves;
  }

  lemma SubmitKeepsHandler(s: State, handler: bool, p: Pc, p': Pc, s': State, f: Pc, o: Pc, e: Pc, f': Pc, o': Pc, e': Pc)
    requires SubmitRule(s, p, p', s') && OneOwner(s.x, o) && HandlerKnows(s.x, o, e)
    requires HolderMoves(s, handler, p, p', f, o, e, f', o', e')
    ensures HandlerKnows(s'.x, o', e')
  {
    SubmitMoves(s, handler, p, p', s', f, o, e, f', o', e');
    hide HolderMoves;
  }

  lemma SubmitChanges(s: State, p: Pc, p': Pc, s': State)
    requires SubmitRule(s, p, p', s')
    ensures if p.SubmitReset? then s'.x == NEW.(linked := true) && s'.winner == None && s'.bulk == s.bulk
            else s'.winner == s.winner && s'.bulk == s.bulk && SameMarks(s.x, s'.x)
  {
  }

  predicate SameMarks(x: Transfer, x': Transfer) {
    x'.action == x.action && x'.cancelling == x.cancelling && x'.timedOut == x.timedOut
  }

  lemma SameWinner(x: Transfer, x': Transfer, bulk: bool, winner: Option<Who>, f: Pc, f': Pc)
    requires OneWinner(x, bulk, winner, f) && SameMarks(x, x') && (f' == f || (!f.TimeoutMark? && !f'.TimeoutMark?))
    ensures OneWinner(x', bulk, winner, f')
  {
  }

  lemma SubmitWinner(s: State, handler: bool, p: Pc, p': Pc, s': State, f: Pc, o: Pc, e: Pc, f': Pc, o': Pc, e': Pc)
    requires SubmitRule(s, p, p', s') && OneWinner(s.x, s.bulk, s.winner, f)
    requires HolderMoves(s, handler, p, p', f, o, e, f', o', e')
    ensures OneWinner(s'.x, s'.bulk, s'.winner, f')
  {
    SubmitMoves(s, handler, p, p', s', f, o, e, f', o', e');
    SubmitChanges(s, p, p', s');
    if p.SubmitReset? {
      assert f == p;
    } else {
      SameWinner(s.x, s'.x, s.bulk, s.winner, f, f');
      hide OneWinner;
    }
    hide SubmitRule, HolderMoves, HoldsTransfer, Owns, Handling, Ending;
  }

  lemma SubmitEndsNothing(s: State, handler: bool, p: Pc, p': Pc, s': State, f: Pc, o: Pc, e: Pc, f': Pc, o': Pc, e': Pc)
    requires SubmitRule(s, p, p', s') && EndsTruly(s.x, o, s.winner)
    requires HolderMoves(s, handler, p, p', f, o, e, f', o', e')
    ensures EndsTruly(s'.x, o', s'.winner)
  {
    SubmitMoves(s, handler, p, p', s', f, o, e, f', o', e');
    hide HolderMoves;
  }

  lemma SubmitKeeps(s: State, handler: bool, p: Pc, p': Pc, s': State, f: Pc, o: Pc, e: Pc, f': Pc, o': Pc, e': Pc)
    requires SubmitRule(s, p, p', s') && Facts(s, f, o, e) && CallsBack(s, o)
    requires HolderMoves(s, handler, p, p', f, o, e, f', o', e')
    ensures Facts(s', f', o', e') && CallsBack(s', o')
  {
    hide SubmitRule, CallsBack, HolderMoves, OneOwner, OneWinner, EndsTruly, HandlerKnows;
    SubmitCounts(s, handler, p, p', s', f, o, e, f', o', e');
    SubmitKeepsOwner(s, handler, p, p', s', f, o, e, f', o', e');
    SubmitKeepsHandler(s, handler, p, p', s', f, o, e, f', o', e');
    SubmitWinner(s, handler, p, p', s', f, o, e, f', o', e');
    SubmitEndsNothing(s, handler, p, p', s', f, o, e, f', o', e');
  }

  // A cancel, by the user or by a timeout, changes nothing but flags and the winner.
  predicate SameButFlags(s: State, p: Pc, p': Pc, s': State) {
    && !Owns(p) && !Owns(p') && !Handling(p) && !Handling(p') && s'.bulk == s.bulk
    && s'.accepted == s.accepted && s'.ends == s.ends
    && s'.x == s.x.(cancelling := s'.x.cancelling, handled := s'.x.handled, timedOut := s'.x.timedOut, action := s'.x.action)
  }

  lemma ResultChangesFlags(x: Transfer, bulk: bool, discarded: bool)
    ensures var y := CancelResult(x, bulk, discarded).0; y == x.(cancelling := y.cancelling, action := y.action)
  {
  }

  lemma CancelChangesFlags(s: State, w: Who, s': State)
    requires CancelBy(s, w, true, s') || CancelBy(s, w, false, s')
    ensures s'.x == s.x.(cancelling := s'.x.cancelling, action := s'.x.action)
    ensures s'.bulk == s.bulk && s'.accepted == s.accepted && s'.ends == s.ends
  {
    ResultChangesFlags(s.x, s.bulk, true);
    ResultChangesFlags(s.x, s.bulk, false);
    hide CancelResult;
  }

  lemma UserChangesFlags(s: State, p: Pc, p': Pc, s': State)
    requires UserRule(s, p, p', s')
    ensures SameButFlags(s, p, p', s')
  {
    hide CancelBy;
    if p.UserCancel? { CancelChangesFlags(s, User, s'); }
  }

  lemma TimeoutChangesFlags(s: State, p: Pc, p': Pc, s': State)
    requires TimeoutRule(s, p, p', s')
    ensures SameButFlags(s, p, p', s')
  {
    hide CancelBy, CancelResult;
    if p.TimeoutCancel? {
      CancelChangesFlags(s, Timeout, s');
    } else {
      hide TimeoutTries;
    }
  }

  lemma OutsiderKeeps(s: State, handler: bool, p: Pc, p': Pc, s': State, f: Pc, o: Pc, e: Pc, f': Pc, o': Pc, e': Pc)
    requires SameButFlags(s, p, p', s') && OneOwner(s.x, o) && HandlerKnows(s.x, o, e) && CallsBack(s, o)
    requires HolderMoves(s, handler, p, p', f, o, e, f', o', e')
    ensures OneOwner(s'.x, o') && HandlerKnows(s'.x, o', e') && CallsBack(s', o')
  {
  }

  lemma CancelKeepsAction(s: State, w: Who, discarded: bool, s': State, o: Pc)
    requires CancelBy(s, w, discarded, s') && OneOwner(s.x, o) && OneAction(s.x, s.bulk, s.winner) && EndsTruly(s.x, o, s.winner)
    ensures OneAction(s'.x, s'.bulk, s'.winner) && EndsTruly(s'.x, o, s'.winner) && s'.x.timedOut == s.x.timedOut
    ensures var ok := CancelResult(s.x, s.bulk, discarded).1;
            s'.winner == (if ok then Some(w) else s.winner) && (ok ==> s.winner == None)
  {
    hide Submitting;
  }

  lemma UserWins(s: State, handler: bool, p: Pc, p': Pc, s': State, f: Pc, o: Pc, e: Pc, f': Pc, o': Pc, e': Pc)
    requires UserRule(s, p, p', s') && OneOwner(s.x, o) && OneWinner(s.x, s.bulk, s.winner, f) && EndsTruly(s.x, o, s.winner)
    requires HolderMoves(s, handler, p, p', f, o, e, f', o', e')
    ensures OneWinner(s'.x, s'.bulk, s'.winner, f') && EndsTruly(s'.x, o', s'.winner)
  {
    hide CancelBy, CancelResult, OneOwner, OneAction;
    assert o' == o;
    if p.UserCancel? {
      var discarded := CancelBy(s, User, true, s');
      CancelKeepsAction(s, User, discarded, s', o);
    }
    hide EndsTruly, HoldsTransfer, Owns, Handling;
  }

  // The thread that watches over timeouts holds flying_transfers_lock all the way.
  lemma TimeoutMoves(s: State, handler: bool, p: Pc, p': Pc, s': State, f: Pc, o: Pc, e: Pc, f': Pc, o': Pc, e': Pc)
    requires TimeoutRule(s, p, p', s')
    requires HolderMoves(s, handler, p, p', f, o, e, f', o', e')
    ensures f == p && f' == p' && o' == o
  {
    hide Changes, CancelBy, CancelResult;
  }

  lemma TimeoutTriesWins(s: State, handler: bool, p: Pc, p': Pc, s': State, f: Pc, o: Pc, e: Pc, f': Pc, o': Pc, e': Pc)
    requires TimeoutRule(s, p, p', s') && p.TimeoutCancel?
    requires OneOwner(s.x, o) && OneWinner(s.x, s.bulk, s.winner, f) && EndsTruly(s.x, o, s.winner)
    requires HolderMoves(s, handler, p, p', f, o, e, f', o', e')
    ensures OneWinner(s'.x, s'.bulk, s'.winner, f') && EndsTruly(s'.x, o', s'.winner)
  {
    TimeoutMoves(s, handler, p, p', s', f, o, e, f', o', e');
    hide HolderMoves, CancelBy, CancelResult, OneOwner, OneAction;
    var discarded := TimeoutTries(s, true, p', s');
    CancelKeepsAction(s, Timeout, discarded, s', o);
    hide EndsTruly;
  }

  lemma TimeoutWins(s: State, handler: bool, p: Pc, p': Pc, s': State, f: Pc, o: Pc, e: Pc, f': Pc, o': Pc, e': Pc)
    requires TimeoutRule(s, p, p', s') && OneOwner(s.x, o) && OneWinner(s.x, s.bulk, s.winner, f) && EndsTruly(s.x, o, s.winner)
    requires HolderMoves(s, handler, p, p', f, o, e, f', o', e')
    ensures OneWinner(s'.x, s'.bulk, s'.winner, f') && EndsTruly(s'.x, o', s'.winner)
  {
    if p.TimeoutCancel? {
      TimeoutTriesWins(s, handler, p, p', s', f, o, e, f', o', e');
      hide *;
    } else {
      TimeoutMoves(s, handler, p, p', s', f, o, e, f', o', e');
      hide HolderMoves, TimeoutTries, OneOwner;
    }
  }

  lemma UserKeeps(s: State, handler: bool, p: Pc, p': Pc, s': State, f: Pc, o: Pc, e: Pc, f': Pc, o': Pc, e': Pc)
    requires UserRule(s, p, p', s') && Facts(s, f, o, e) && CallsBack(s, o)
    requires HolderMoves(s, handler, p, p', f, o, e, f', o', e')
    ensures Facts(s', f', o', e') && CallsBack(s', o')
  {
    UserChangesFlags(s, p, p', s');
    hide HolderMoves, SameButFlags, OneOwner, OneWinner, EndsTruly, HandlerKnows, CallsBack, UserRule, TimeoutRule;
    OutsiderKeeps(s, handler, p, p', s', f, o, e, f', o', e');
    UserWins(s, handler, p, p', s', f, o, e, f', o', e');
  }

  lemma TimeoutKeeps(s: State, handler: bool, p: Pc, p': Pc, s': State, f: Pc, o: Pc, e: Pc, f': Pc, o': Pc, e': Pc)
    requires TimeoutRule(s, p, p', s') && Facts(s, f, o, e) && CallsBack(s, o)
    requires HolderMoves(s, handler, p, p', f, o, e, f', o', e')
    ensures Facts(s', f', o', e') && CallsBack(s', o')
  {
    TimeoutChangesFlags(s, p, p', s');
    hide HolderMoves, SameButFlags, OneOwner, OneWinner, EndsTruly, HandlerKnows, CallsBack, UserRule, TimeoutRule;
    OutsiderKeeps(s, handler, p, p', s', f, o, e, f', o', e');
    TimeoutWins(s, handler, p, p', s', f, o, e, f', o', e');
  }

  // The walk only looks.
  lemma WalkLooks(s: State, handler: bool, p: Pc, p': Pc, s': State, f: Pc, o: Pc, e: Pc, f': Pc, o': Pc, e': Pc)
    requires DisconnectRule(s, p, p', s') && !p.DiscClear?
    requires HolderMoves(s, handler, p, p', f, o, e, f', o', e')
    ensures s'.x == s.x && s'.bulk == s.bulk && s'.winner == s.winner && s'.accepted == s.accepted && s'.ends == s.ends
    ensures o' == o
    ensures f' == f || (!f.TimeoutMark? && !f'.TimeoutMark?)
  {
  }

  lemma WalkKnows(s: State, handler: bool, p: Pc, p': Pc, s': State, f: Pc, o: Pc, e: Pc, f': Pc, o': Pc, e': Pc)
    requires DisconnectRule(s, p, p', s') && !p.DiscClear? && OneOwner(s.x, o) && HandlerKnows(s.x, o, e)
    requires HolderMoves(s, handler, p, p', f, o, e, f', o', e')
    ensures HandlerKnows(s'.x, o', e')
  {
  }

  lemma WalkKeeps(s: State, handler: bool, p: Pc, p': Pc, s': State, f: Pc, o: Pc, e: Pc, f': Pc, o': Pc, e': Pc)
    requires DisconnectRule(s, p, p', s') && !p.DiscClear? && Facts(s, f, o, e) && CallsBack(s, o)
    requires HolderMoves(s, handler, p, p', f, o, e, f', o', e')
    ensures Facts(s', f', o', e') && CallsBack(s', o')
  {
    WalkLooks(s, handler, p, p', s', f, o, e, f', o', e');
    WalkKnows(s, handler, p, p', s', f, o, e, f', o', e');
    hide DisconnectRule, HolderMoves, OneOwner, EndsTruly, HandlerKnows;
  }

  lemma PickedKeeps(s: State, handler: bool, p: Pc, p': Pc, s': State, f: Pc, o: Pc, e: Pc, f': Pc, o': Pc, e': Pc)
    requires DisconnectRule(s, p, p', s') && p.DiscClear? && Facts(s, f, o, e) && CallsBack(s, o)
    requires HolderMoves(s, handler, p, p', f, o, e, f', o', e')
    ensures Facts(s', f', o', e') && CallsBack(s', o')
  {
  }

  lemma DisconnectKeeps(s: State, handler: bool, p: Pc, p': Pc, s': State, f: Pc, o: Pc, e: Pc, f': Pc, o': Pc, e': Pc)
    requires DisconnectRule(s, p, p', s') && Facts(s, f, o, e) && CallsBack(s, o)
    requires HolderMoves(s, handler, p, p', f, o, e, f', o', e')
    ensures Facts(s', f', o', e') && CallsBack(s', o')
  {
    hide DisconnectRule, Facts, CallsBack, HolderMoves;
    if p.DiscClear? { PickedKeeps(s, handler, p, p', s', f, o, e, f', o', e'); } else { WalkKeeps(s, handler, p, p', s', f, o, e, f', o', e'); }
  }

  lemma CloseKeeps(s: State, handler: bool, p: Pc, p': Pc, s': State, f: Pc, o: Pc, e: Pc, f': Pc, o': Pc, e': Pc)
    requires CloseRule(s, p, p', s') && Facts(s, f, o, e) && CallsBack(s, o)
    requires HolderMoves(s, handler, p, p', f, o, e, f', o', e')
    ensures Facts(s', f', o', e') && CallsBack(s', o')
  {
  }

  lemma ReapUrbKeeps(s: State, handler: bool, p: Pc, p': Pc, s': State, f: Pc, o: Pc, e: Pc, f': Pc, o': Pc, e': Pc)
    requires ReapRule(s, handler, p, p', s') && p.Idle? && Facts(s, f, o, e) && CallsBack(s, o)
    requires HolderMoves(s, handler, p, p', f, o, e, f', o', e')
    ensures Facts(s', f', o', e') && CallsBack(s', o')
  {
    assert s.winner.Some? ==> s.winner == Some(s.winner.value) && (s.winner.value.User? || s.winner.value.Timeout?);
  }

  lemma EndKeeps(s: State, handler: bool, p: Pc, p': Pc, s': State, f: Pc, o: Pc, e: Pc, f': Pc, o': Pc, e': Pc)
    requires ReapRule(s, handler, p, p', s') && !p.Idle? && Facts(s, f, o, e) && CallsBack(s, o)
    requires HolderMoves(s, handler, p, p', f, o, e, f', o', e')
    ensures Facts(s', f', o', e') && CallsBack(s', o')
  {
    assert s.winner.Some? ==> s.winner == Some(s.winner.value) && (s.winner.value.User? || s.winner.value.Timeout?);
  }

  lemma ReapKeeps(s: State, handler: bool, p: Pc, p': Pc, s': State, f: Pc, o: Pc, e: Pc, f': Pc, o': Pc, e': Pc)
    requires ReapRule(s, handler, p, p', s') && Facts(s, f, o, e) && CallsBack(s, o)
    requires HolderMoves(s, handler, p, p', f, o, e, f', o', e')
    ensures Facts(s', f', o', e') && CallsBack(s', o')
  {
    hide ReapRule, Facts, CallsBack, HolderMoves;
    if p.Idle? { ReapUrbKeeps(s, handler, p, p', s', f, o, e, f', o', e'); } else { EndKeeps(s, handler, p, p', s', f, o, e, f', o', e'); }
  }

  lemma RuleKeeps(s: State, t: Tid, p: Pc, p': Pc, s': State, f: Pc, o: Pc, e: Pc, f': Pc, o': Pc, e': Pc)
    requires Rule(s, t, p, p', s') && Facts(s, f, o, e) && CallsBack(s, o)
    requires HolderMoves(s, s.events == Some(t), p, p', f, o, e, f', o', e')
    ensures Facts(s', f', o', e') && CallsBack(s', o')
  {
    hide HolderMoves, Facts, CallsBack, SubmitRule, UserRule, TimeoutRule, DisconnectRule, CloseRule, ReapRule;
    var h := s.events == Some(t);
    if SubmitRule(s, p, p', s') { SubmitKeeps(s, h, p, p', s', f, o, e, f', o', e'); }
    else if UserRule(s, p, p', s') { UserKeeps(s, h, p, p', s', f, o, e, f', o', e'); }
    else if TimeoutRule(s, p, p', s') { TimeoutKeeps(s, h, p, p', s', f, o, e, f', o', e'); }
    else if DisconnectRule(s, p, p', s') { DisconnectKeeps(s, h, p, p', s', f, o, e, f', o', e'); }
    else if CloseRule(s, p, p', s') { CloseKeeps(s, h, p, p', s', f, o, e, f', o', e'); }
    else { ReapKeeps(s, h, p, p', s', f, o, e, f', o', e'); }
  }

  lemma EventsKeep(s: State, t: Tid, s': State)
    requires Inv(s) && t in s.pc && Moves(s, t, s') && EventsRule(s, t, s.pc[t], s'.pc[t], s')
    ensures Inv(s')
  {
    assert s'.pc == s.pc && s'.flying == s.flying && s'.lock == s.lock && s'.owner == s.owner;
    assert Holder(s'.pc, s'.events) == Idle && Holder(s.pc, s.events) == Idle;
    hide Moves, HoldsFlying, HoldsTransfer;
  }

  lemma NextKeeps(s: State, t: Tid, s': State)
    requires Inv(s) && Next(s, t, s')
    ensures Inv(s')
  {
    if EventsRule(s, t, s.pc[t], s'.pc[t], s') {
      EventsKeep(s, t, s');
      hide *;
    } else {
      MovesKeepLocks(s, t, s');
      HoldersMove(s, t, s');
      hide Moves, LocksHeld, HolderMoves, Facts, CallsBack, Rule, Holder, EventsRule;
      RuleKeeps(s, t, s.pc[t], s'.pc[t], s', Holder(s.pc, s.flying), Holder(s.pc, s.owner), Holder(s.pc, s.events),
                Holder(s'.pc, s'.flying), Holder(s'.pc, s'.owner), Holder(s'.pc, s'.events));
    }
  }

  lemma {:induction false} RunKeeps(ss: seq<State>, ts: seq<Tid>, n: nat)
    requires Run(ss, ts) && n < |ss|
    ensures Inv(ss[n])
  {
    if n > 0 {
      RunKeeps(ss, ts, n - 1);
      NextKeeps(ss[n - 1], ts[n - 1], ss[n]);
    }
  }

  // ---------------------------------------------------------------- results

  // In every run, each callback that reports an end by cancellation reports TIMED_OUT if the
  // timeout's cancel succeeded and CANCELLED if the user's did, unless a URB of a bulk transfer had
  // failed first or the disconnect has come before the last URB. That overtakes a cancel that had
  // succeeded. An interrupt transfer forgets a failure when a cancel succeeds.
  lemma TimeoutVersusCancel(ss: seq<State>, ts: seq<Tid>, n: nat, e: End)
    requires Run(ss, ts) && n < |ss| && e in ss[n].ends
    ensures e.status == TimedOut <==> e.winner == Some(Timeout) && !(e.failed && e.bulk) && !e.lost
    ensures e.status == Cancelled <==> e.winner == Some(User) && !(e.failed && e.bulk) && !e.lost
    ensures e.status == Disconnected <==> e.lost
  {
    RunKeeps(ss, ts, n);
  }

  // One callback for each submission the backend accepted, once the transfer is back with its user,
  // whether its URBs come back or the disconnect takes it.
  lemma OneCallbackEach(ss: seq<State>, ts: seq<Tid>, n: nat)
    requires Run(ss, ts) && n < |ss|
    ensures |ss[n].ends| <= ss[n].accepted <= |ss[n].ends| + 1
    ensures ss[n].owner == None && !ss[n].x.inFlight ==> ss[n].accepted == |ss[n].ends|
  {
    RunKeeps(ss, ts, n);
  }

  lemma OrphanIsNotSubmitted(s: State, p: Pc, p': Pc, s': State)
    requires s.x.closed && !Owns(p)
    ensures !SubmitRule(s, p, p', s')
  {
  }

  lemma CloseKeepsOrphan(s: State, p: Pc, p': Pc, s': State)
    requires CloseRule(s, p, p', s') && s.x.closed
    ensures s'.x.closed && s'.accepted == s.accepted && s'.ends == s.ends && (s'.x.inFlight <==> s.x.inFlight)
  {
    assert s'.x == s.x || s'.x == s.x.(closed := true) || s'.x == s.x.(linked := false, closed := true);
    hide CloseRule;
  }

  lemma HandlerKeepsOrphan(s: State, handler: bool, p: Pc, p': Pc, s': State)
    requires (DisconnectRule(s, p, p', s') || ReapRule(s, handler, p, p', s')) && s.x.closed && !Owns(p) && !p.DiscClear?
    ensures s'.x.closed && s'.accepted == s.accepted && s'.ends == s.ends && (s'.x.inFlight <==> s.x.inFlight)
  {
  }

  lemma NobodyOwnsOrphan(s: State, t: Tid)
    requires LocksHeld(s) && t in s.pc && s.x.closed
    requires OneOwner(s.x, Holder(s.pc, s.owner)) && HandlerKnows(s.x, Holder(s.pc, s.owner), Holder(s.pc, s.events))
    ensures !Owns(s.pc[t]) && !s.pc[t].DiscClear?
  {
    assert Owns(s.pc[t]) ==> s.owner == Some(t);
    assert Handling(s.pc[t]) ==> s.events == Some(t);
    hide LocksHeld;
  }

  lemma NextOrphan(s: State, t: Tid, s': State)
    requires Inv(s) && s.x.closed && Next(s, t, s')
    ensures s'.x.closed && s'.accepted == s.accepted && s'.ends == s.ends && (s'.x.inFlight <==> s.x.inFlight)
  {
    assert t in s'.pc;
    hide Moves, CallsBack, EndsTruly, OneWinner, OneOwner, HandlerKnows, LocksHeld, Holder;
    NobodyOwnsOrphan(s, t);
    hide SubmitRule, UserRule, TimeoutRule, DisconnectRule, CloseRule, ReapRule;
    var p, p' := s.pc[t], s'.pc[t];
    OrphanIsNotSubmitted(s, p, p', s');
    if s'.events == s.events && Rule(s, t, p, p', s') {
      if UserRule(s, p, p', s') { UserChangesFlags(s, p, p', s'); }
      else if TimeoutRule(s, p, p', s') { TimeoutChangesFlags(s, p, p', s'); }
      else if CloseRule(s, p, p', s') { CloseKeepsOrphan(s, p, p', s'); }
      else { HandlerKeepsOrphan(s, s.events == Some(t), p, p', s'); }
    }
  }

  lemma OrphanCounts(s: State)
    requires Inv(s) && s.x.closed
    ensures s.accepted == |s.ends| + if s.x.inFlight then 1 else 0
  {
    hide LocksHeld, OneWinner, EndsTruly, HandlerKnows;
  }

  // After the close nothing calls back: a transfer that was in flight stays so for good, and the
  // callback of its submission never comes.
  lemma {:induction false} OrphanIsNeverCalledBack(ss: seq<State>, ts: seq<Tid>, m: nat, n: nat)
    requires Run(ss, ts) && m <= n < |ss| && ss[m].x.closed
    ensures ss[n].x.closed && ss[n].ends == ss[m].ends && ss[n].accepted == ss[m].accepted
    ensures ss[n].accepted == |ss[n].ends| + if ss[m].x.inFlight then 1 else 0
    ensures ss[n].x.inFlight <==> ss[m].x.inFlight
  {
    hide Inv, Next, Init;
    if m < n {
      OrphanIsNeverCalledBack(ss, ts, m, n - 1);
      RunKeeps(ss, ts, n - 1);
      NextOrphan(ss[n - 1], ts[n - 1], ss[n]);
    } else {
      RunKeeps(ss, ts, n);
      OrphanCounts(ss[n]);
    }
  }

  // A cancel succeeds if and only if the transfer is in flight, has not been cancelled yet, and the backend
  // discards its URBs. Then it is marked as cancelled, unless it is a bulk transfer that had failed. A
  // cancel that comes as far as the backend is never tried again.
  lemma CancelMeans(x: Transfer, bulk: bool, discarded: bool)
    ensures var (y, ok) := CancelResult(x, bulk, discarded);
            && (ok <==> x.inFlight && !x.cancelling && x.urbs && discarded)
            && y.cancelling == (x.cancelling || x.inFlight)
            && (ok ==> if bulk && x.action == Failed then y.action == Failed else y.action.CancelledAction?)
            && (!ok ==> y.action == x.action)
            && y == x.(cancelling := y.cancelling, action := y.action)
  {
  }

  // The first cancel that succeeds decides until the transfer is submitted again.
  lemma WinnerIsFinal(ss: seq<State>, ts: seq<Tid>, n: nat)
    requires Run(ss, ts) && n + 1 < |ss| && ss[n].winner.Some?
    requires ts[n] in ss[n].pc && ss[n].pc[ts[n]] != SubmitReset
    ensures ss[n + 1].winner == ss[n].winner
  {
    RunKeeps(ss, ts, n);
    var s, t, s' := ss[n], ts[n], ss[n + 1];
    assert s.x.cancelling by { hide LocksHeld, OneOwner, CallsBack, EndsTruly, HandlerKnows, Run; }
    assert Next(s, t, s') && t in s'.pc;
    hide Inv, Run, Rule, Moves;
    if s'.events == s.events && Rule(s, t, s.pc[t], s'.pc[t], s') { RuleKeepsWinner(s, t, s.pc[t], s'.pc[t], s'); }
  }

  lemma SubmitKeepsWinner(s: State, p: Pc, p': Pc, s': State)
    requires SubmitRule(s, p, p', s') && !p.SubmitReset?
    ensures s'.winner == s.winner
  {
  }

  // A second cancel fails.
  lemma CancelKeepsWinner(s: State, p: Pc, p': Pc, s': State)
    requires (UserRule(s, p, p', s') || TimeoutRule(s, p, p', s')) && s.x.cancelling
    ensures s'.winner == s.winner
  {
    assert !CancelResult(s.x, s.bulk, true).1 && !CancelResult(s.x, s.bulk, false).1;
    hide CancelResult;
  }

  lemma HandlerKeepsWinner(s: State, handler: bool, p: Pc, p': Pc, s': State)
    requires DisconnectRule(s, p, p', s') || CloseRule(s, p, p', s') || ReapRule(s, handler, p, p', s')
    ensures s'.winner == s.winner
  {
  }

  lemma RuleKeepsWinner(s: State, t: Tid, p: Pc, p': Pc, s': State)
    requires Rule(s, t, p, p', s') && s.x.cancelling && !p.SubmitReset?
    ensures s'.winner == s.winner
  {
    hide SubmitRule, UserRule, TimeoutRule, DisconnectRule, CloseRule, ReapRule;
    if SubmitRule(s, p, p', s') { SubmitKeepsWinner(s, p, p', s'); }
    else if UserRule(s, p, p', s') || TimeoutRule(s, p, p', s') { CancelKeepsWinner(s, p, p', s'); }
    else { HandlerKeepsWinner(s, s.events == Some(t), p, p', s'); }
  }

  // ---------------------------------------------------------------- every lock holder goes on

  function LockAfter(had: bool, l: Option<Tid>, t: Tid, has: bool): Option<Tid> {
    if had == has then l else if has then Some(t) else None
  }

  // s after t has moved to p', with a new transfer, winner and count.
  function Moved(s: State, t: Tid, p': Pc, x: Transfer, winner: Option<Who>, accepted: nat): State
    requires t in s.pc
  {
    var p := s.pc[t];
    State(x, s.bulk, LockAfter(HoldsFlying(p), s.flying, t, HoldsFlying(p')),
          LockAfter(HoldsTransfer(p), s.lock, t, HoldsTransfer(p')), s.events, s.pc[t := p'],
          LockAfter(Owns(p), s.owner, t, Owns(p')), winner, accepted, s.ends)
  }

  predicate Free(s: State, t: Tid, p: Pc, p': Pc) {
    && (HoldsFlying(p') && !HoldsFlying(p) ==> s.flying == None)
    && (HoldsTransfer(p') && !HoldsTransfer(p) ==> s.lock == None)
    && (Owns(p') && !Owns(p) ==> s.owner == None)
    && (Handling(p') ==> s.events == Some(t))
  }

  lemma MovedMoves(s: State, t: Tid, p': Pc, x: Transfer, winner: Option<Who>, accepted: nat)
    requires t in s.pc && Free(s, t, s.pc[t], p')
    ensures var s' := Moved(s, t, p', x, winner, accepted);
            && Moves(s, t, s') && s'.pc[t] == p' && s'.x == x && s'.winner == winner && s'.accepted == accepted
            && s'.ends == s.ends && s'.events == s.events && s'.bulk == s.bulk
  {
  }

  // One of the rules.
  datatype Part = Submits | Cancels | Timeouts | Disconnects | Closes | Reaps

  predicate PartRule(part: Part, s: State, handler: bool, p: Pc, p': Pc, s': State) {
    match part
    case Submits => SubmitRule(s, p, p', s')
    case Cancels => UserRule(s, p, p', s')
    case Timeouts => TimeoutRule(s, p, p', s')
    case Disconnects => DisconnectRule(s, p, p', s')
    case Closes => CloseRule(s, p, p', s')
    case Reaps => ReapRule(s, handler, p, p', s')
  }

  lemma PartIsRule(part: Part, s: State, t: Tid, p: Pc, p': Pc, s': State)
    requires PartRule(part, s, s.events == Some(t), p, p', s')
    ensures Rule(s, t, p, p', s')
  {
    hide SubmitRule, UserRule, TimeoutRule, DisconnectRule, CloseRule, ReapRule;
  }

  ghost predicate CanStep(s: State, t: Tid) { exists s' :: Next(s, t, s') }

  lemma CanMove(s: State, t: Tid, part: Part, p': Pc, x: Transfer, winner: Option<Who>)
    requires t in s.pc && Free(s, t, s.pc[t], p')
    requires PartRule(part, s, s.events == Some(t), s.pc[t], p', Moved(s, t, p', x, winner, s.accepted))
    ensures CanStep(s, t)
  {
    PartIsRule(part, s, t, s.pc[t], p', Moved(s, t, p', x, winner, s.accepted));
    MovedMoves(s, t, p', x, winner, s.accepted);
    hide Rule, PartRule, Moves, Free, Moved;
    assert Next(s, t, Moved(s, t, p', x, winner, s.accepted));
  }

  lemma HolderOfTransferSteps(s: State, t: Tid)
    requires Inv(s) && s.lock == Some(t)
    ensures CanStep(s, t)
  {
    assert HoldsTransfer(s.pc[t]) && (Handling(s.pc[t]) ==> s.events == Some(t));
    if s.pc[t].DiscClear? { NobodyOwns(s, t); }
    hide Facts, CallsBack, CanStep, LocksHeld;
    if Handling(s.pc[t]) { HandlerLetsTransferGo(s, t); } else { OtherLetsTransferGo(s, t); }
  }

  lemma OtherLetsTransferGo(s: State, t: Tid)
    requires t in s.pc && HoldsTransfer(s.pc[t]) && !Handling(s.pc[t])
    ensures CanStep(s, t)
  {
    hide CanStep, DisconnectRule, CloseRule, ReapRule;
    var x := CancelResult(s.x, s.bulk, false).0;
    match s.pc[t]
    case SubmitReset => CanMove(s, t, Submits, SubmitUrbs, NEW.(linked := true), None);
    case SubmitUrbs => CanMove(s, t, Submits, SubmitFailed, s.x, s.winner);
    case UserCancel => CanMove(s, t, Cancels, Idle, x, s.winner);
    case TimeoutCancel => CanMove(s, t, Timeouts, TimeoutMark(false), x, s.winner);
    case _ =>
  }

  lemma HandlerLetsTransferGo(s: State, t: Tid)
    requires t in s.pc && HoldsTransfer(s.pc[t]) && Handling(s.pc[t]) && s.events == Some(t)
    requires s.pc[t].DiscClear? ==> s.owner == None
    ensures CanStep(s, t)
  {
    hide CanStep, SubmitRule, UserRule, TimeoutRule, ReapRule;
    match s.pc[t]
    case DiscLook => CanMove(s, t, Disconnects, DiscPicked(s.x.inFlight), s.x, s.winner);
    case DiscClear => CanMove(s, t, Disconnects, Unlink(Disconnected), s.x.(urbs := false, lost := true), s.winner);
    case CloseLook => CanMove(s, t, Closes, CloseUnlink, s.x, s.winner);
    case _ =>
  }

  // What the disconnect has picked is neither being submitted nor ended.
  lemma NobodyOwns(s: State, t: Tid)
    requires Inv(s) && t in s.pc && s.pc[t].DiscClear?
    ensures s.owner == None
  {
    assert s.events == Some(t);
    hide CallsBack, OneWinner, EndsTruly;
  }

  lemma HolderOfFlyingSteps(s: State, t: Tid)
    requires Inv(s) && s.flying == Some(t) && s.lock == None
    ensures CanStep(s, t)
  {
    assert HoldsFlying(s.pc[t]) && !HoldsTransfer(s.pc[t]) && (Handling(s.pc[t]) ==> s.events == Some(t));
    hide Facts, CallsBack, CanStep, LocksHeld;
    if Handling(s.pc[t]) { HandlerLetsFlyingGo(s, t); } else { OtherLetsFlyingGo(s, t); }
  }

  lemma OtherLetsFlyingGo(s: State, t: Tid)
    requires t in s.pc && HoldsFlying(s.pc[t]) && !HoldsTransfer(s.pc[t]) && !Handling(s.pc[t]) && s.lock == None
    ensures CanStep(s, t)
  {
    hide CanStep, DisconnectRule, CloseRule, ReapRule, UserRule;
    match s.pc[t]
    case SubmitFly => CanMove(s, t, Submits, SubmitReset, s.x, s.winner);
    case TimeoutScan => CanMove(s, t, Timeouts, Idle, s.x, s.winner);
    case TimeoutWant => CanMove(s, t, Timeouts, TimeoutCancel, s.x, s.winner);
    case TimeoutMark(ok) => CanMove(s, t, Timeouts, TimeoutScan, s.x.(timedOut := ok || s.x.timedOut), s.winner);
    case _ =>
  }

  lemma HandlerLetsFlyingGo(s: State, t: Tid)
    requires t in s.pc && HoldsFlying(s.pc[t]) && !HoldsTransfer(s.pc[t]) && Handling(s.pc[t])
    requires s.events == Some(t) && s.lock == None
    ensures CanStep(s, t)
  {
    if Closing(s.pc[t]) {
      CloseLetsFlyingGo(s, t);
    } else {
      hide CanStep, SubmitRule, UserRule, TimeoutRule, CloseRule;
      match s.pc[t]
      case ReadTimedOut => CanMove(s, t, Reaps, Unlink(if s.x.timedOut then TimedOut else Cancelled), s.x, s.winner);
      case DiscScan => CanMove(s, t, Disconnects, if s.x.linked then DiscLook else Idle, s.x, s.winner);
      case DiscPicked(found) => CanMove(s, t, Disconnects, if found then DiscFound else Idle, s.x, s.winner);
      case _ =>
    }
  }

  lemma CloseLetsFlyingGo(s: State, t: Tid)
    requires t in s.pc && (s.pc[t].CloseScan? || s.pc[t].CloseUnlink?) && s.events == Some(t) && s.lock == None
    ensures CanStep(s, t)
  {
    hide CanStep, SubmitRule, UserRule, TimeoutRule, DisconnectRule, ReapRule;
    if s.pc[t].CloseScan? {
      CanMove(s, t, Closes, if s.x.linked then CloseLook else Idle, s.x.(closed := s.x.closed || !s.x.linked), s.winner);
    } else {
      CanMove(s, t, Closes, Idle, s.x.(linked := false, closed := true), s.winner);
    }
  }

  lemma GivesEventsBack(s: State, t: Tid)
    requires t in s.pc && s.pc[t].Idle? && s.events == Some(t)
    ensures CanStep(s, t)
  {
    hide Rule;
    var s' := s.(events := None);
    assert s'.pc == s.pc[t := s'.pc[t]];
    assert Next(s, t, s');
  }

  lemma CallsBackNow(s: State, t: Tid)
    requires t in s.pc && s.pc[t].Report? && s.events == Some(t) && s.owner == Some(t)
    ensures CanStep(s, t)
  {
    var s' := Moved(s, t, Idle, s.x, s.winner, s.accepted)
      .(ends := s.ends + [EndOf(s.pc[t].status, s.winner, s.x, s.bulk)]);
    hide SubmitRule, UserRule, TimeoutRule, DisconnectRule, CloseRule;
    assert Rule(s, t, s.pc[t], s'.pc[t], s');
    hide Rule;
    assert Next(s, t, s');
  }

  lemma HolderOfEventsSteps(s: State, t: Tid)
    requires Inv(s) && s.events == Some(t) && s.flying == None && s.lock == None
    ensures CanStep(s, t)
  {
    assert !HoldsFlying(s.pc[t]) && !HoldsTransfer(s.pc[t]) && (Owns(s.pc[t]) ==> s.owner == Some(t));
    hide Facts, CallsBack, CanStep, LocksHeld;
    if Ending(s.pc[t]) { EndGoesOn(s, t); } else { OtherGoesOn(s, t); }
  }

  lemma EndGoesOn(s: State, t: Tid)
    requires t in s.pc && Ending(s.pc[t]) && !HoldsFlying(s.pc[t])
    requires s.events == Some(t) && s.owner == Some(t) && s.flying == None && s.lock == None
    ensures CanStep(s, t)
  {
    if s.pc[t].Report? { CallsBackNow(s, t); }
    hide CanStep, SubmitRule, UserRule, TimeoutRule, DisconnectRule, CloseRule;
    match s.pc[t]
    case AskTimedOut => CanMove(s, t, Reaps, ReadTimedOut, s.x, s.winner);
    case Unlink(st) => CanMove(s, t, Reaps, Clear(st), s.x.(linked := false), s.winner);
    case Clear(st) => CanMove(s, t, Reaps, Report(st), s.x.(inFlight := false), s.winner);
    case _ =>
  }

  lemma OtherGoesOn(s: State, t: Tid)
    requires t in s.pc && !Ending(s.pc[t]) && !HoldsFlying(s.pc[t]) && !HoldsTransfer(s.pc[t])
    requires s.events == Some(t) && s.flying == None && s.lock == None
    ensures CanStep(s, t)
  {
    hide CanStep, TimeoutRule, CloseRule, ReapRule;
    match s.pc[t]
    case Idle => GivesEventsBack(s, t);
    case SubmitFailed => CanMove(s, t, Submits, Idle, s.x.(linked := false), s.winner);
    case UserWant => CanMove(s, t, Cancels, UserCancel, s.x, s.winner);
    case DiscFound => CanMove(s, t, Disconnects, DiscClear, s.x, s.winner);
    case _ =>
  }

  // The three locks are only ever taken in one order: events_lock, flying_transfers_lock, the
  // transfer's own. So the holder of the last that is held can go on, in a submission, a cancel, a
  // timeout, a disconnect, a close or a completion.
  lemma NoDeadlock(ss: seq<State>, ts: seq<Tid>, n: nat)
    requires Run(ss, ts) && n < |ss|
    ensures var s := ss[n];
            && (s.lock.Some? ==> CanStep(s, s.lock.value))
            && (s.lock == None && s.flying.Some? ==> CanStep(s, s.flying.value))
            && (s.lock == None && s.flying == None && s.events.Some? ==> CanStep(s, s.events.value))
  {
    RunKeeps(ss, ts, n);
    hide Inv, CanStep;
    if ss[n].lock.Some? { HolderOfTransferSteps(ss[n], ss[n].lock.value); }
    else if ss[n].flying.Some? { HolderOfFlyingSteps(ss[n], ss[n].flying.value); }
    else if ss[n].events.Some? { HolderOfEventsSteps(ss[n], ss[n].events.value); }
  }

  // ---------------------------------------------------------------- why the flag is read locked

  const FLYING := NEW.(linked := true, inFlight := true, urbs := true)
  const CANCELLED := FLYING.(handled := true, cancelling := true, action := CancelledAction(false))

  // Thread 1 handles events and submits; thread 0 watches over timeouts.
  function Both(x: Transfer, p0: Pc, p1: Pc, winner: Option<Who>, accepted: nat, ends: seq<End>): (s: State)
    ensures 0 in s.pc && 1 in s.pc
  {
    State(x, true, if HoldsFlying(p0) then Some(0) else if HoldsFlying(p1) then Some(1) else None,
          if HoldsTransfer(p0) then Some(0) else if HoldsTransfer(p1) then Some(1) else None,
          Some(1), map[0 := p0, 1 := p1], if Owns(p1) then Some(1) else None, winner, accepted, ends)
  }

  // One of the two goes on.
  lemma Turn(ss: seq<State>, ts: seq<Tid>, t: Tid, part: Part, s': State) returns (ss': seq<State>, ts': seq<Tid>)
    requires Run(ss, ts) && t in ss[|ts|].pc && t in s'.pc && s'.events == ss[|ts|].events && Moves(ss[|ts|], t, s')
    requires PartRule(part, ss[|ts|], s'.events == Some(t), ss[|ts|].pc[t], s'.pc[t], s')
    ensures Run(ss', ts') && ss'[|ts'|] == s'
  {
    PartIsRule(part, ss[|ts|], t, ss[|ts|].pc[t], s'.pc[t], s');
    hide Init, Rule, PartRule, Moves;
    assert Next(ss[|ts|], t, s');
    ss', ts' := ss + [s'], ts + [t];
  }

  lemma BothMove(x: Transfer, p0: Pc, p1: Pc, w: Option<Who>, n: nat, t: Tid, p0': Pc, p1': Pc,
                 x': Transfer, w': Option<Who>, n': nat, ends: seq<End>)
    requires t == 0 || t == 1
    requires if t == 0 then p1' == p1 else p0' == p0
    requires t == 0 ==> p1.Idle? && !Owns(p0) && !Owns(p0') && !Handling(p0')
    requires t == 1 ==> p0.Idle? || (!Owns(p0) && !HoldsTransfer(p0) && !HoldsFlying(p1) && !HoldsFlying(p1'))
    ensures t == 0 ==> Moves(Both(x, p0, p1, w, n, []), 0, Both(x', p0', p1', w', n', ends))
    ensures t == 1 ==> Moves(Both(x, p0, p1, w, n, []), 1, Both(x', p0', p1', w', n', ends))
  {
    var pc, pc' := map[0 := p0, 1 := p1], map[0 := p0', 1 := p1'];
    assert pc' == pc[t := pc'[t]];
  }

  lemma Turn0(ss: seq<State>, ts: seq<Tid>, part: Part, x: Transfer, p0: Pc, w: Option<Who>, p0': Pc, x': Transfer, w': Option<Who>)
    returns (ss': seq<State>, ts': seq<Tid>)
    requires Run(ss, ts) && ss[|ts|] == Both(x, p0, Idle, w, 1, []) && !Owns(p0) && !Owns(p0') && !Handling(p0')
    requires PartRule(part, Both(x, p0, Idle, w, 1, []), false, p0, p0', Both(x', p0', Idle, w', 1, []))
    ensures Run(ss', ts') && ss'[|ts'|] == Both(x', p0', Idle, w', 1, [])
  {
    hide PartRule;
    BothMove(x, p0, Idle, w, 1, 0, p0', Idle, x', w', 1, []);
    hide Moves, HoldsFlying, HoldsTransfer, Owns, Handling;
    ss', ts' := Turn(ss, ts, 0, part, Both(x', p0', Idle, w', 1, []));
  }

  function Winner(p1': Pc, w: Option<Who>): Option<Who> { if p1'.SubmitUrbs? then None else w }

  lemma Turn1(ss: seq<State>, ts: seq<Tid>, part: Part, x: Transfer, p0: Pc, p1: Pc, w: Option<Who>, n: nat,
              p1': Pc, x': Transfer, n': nat, ends: seq<End>)
    returns (ss': seq<State>, ts': seq<Tid>)
    requires Run(ss, ts) && ss[|ts|] == Both(x, p0, p1, w, n, [])
    requires p0.Idle? || (!Owns(p0) && !HoldsTransfer(p0) && !HoldsFlying(p1) && !HoldsFlying(p1'))
    requires PartRule(part, Both(x, p0, p1, w, n, []), true, p1, p1', Both(x', p0, p1', Winner(p1', w), n', ends))
    ensures Run(ss', ts') && ss'[|ts'|] == Both(x', p0, p1', Winner(p1', w), n', ends)
  {
    hide PartRule, Winner;
    BothMove(x, p0, p1, w, n, 1, p0, p1', x', Winner(p1', w), n', ends);
    hide Moves, HoldsFlying, HoldsTransfer, Owns, Handling;
    ss', ts' := Turn(ss, ts, 1, part, Both(x', p0, p1', Winner(p1', w), n', ends));
  }

  lemma AcceptedRun() returns (ss: seq<State>, ts: seq<Tid>)
    ensures Run(ss, ts) && ss[|ts|] == Both(FLYING, Idle, Idle, None, 1, [])
  {
    ss := [State(NEW, true, None, None, None, map[0 := Idle, 1 := Idle], None, None, 0, []), Both(NEW, Idle, Idle, None, 0, [])];
    ts := [1];
    assert ss[1].pc == ss[0].pc[1 := Idle];
    hide Run, UserRule, TimeoutRule, DisconnectRule, CloseRule, ReapRule;
    ss, ts := Turn1(ss, ts, Submits, NEW, Idle, Idle, None, 0, SubmitFly, NEW, 0, []);
    ss, ts := Turn1(ss, ts, Submits, NEW, Idle, SubmitFly, None, 0, SubmitReset, NEW, 0, []);
    var l := NEW.(linked := true);
    ss, ts := Turn1(ss, ts, Submits, NEW, Idle, SubmitReset, None, 0, SubmitUrbs, l, 0, []);
    ss, ts := Turn1(ss, ts, Submits, l, Idle, SubmitUrbs, None, 0, Idle, FLYING, 1, []);
  }

  // The timeout's cancel has succeeded, and its thread is about to note so.
  lemma TimeoutRun() returns (ss: seq<State>, ts: seq<Tid>)
    ensures Run(ss, ts) && ss[|ts|] == Both(CANCELLED, TimeoutMark(true), Idle, Some(Timeout), 1, [])
  {
    ss, ts := AcceptedRun();
    hide Run, UserRule, SubmitRule, DisconnectRule, CloseRule, ReapRule;
    var h := FLYING.(handled := true);
    ss, ts := Turn0(ss, ts, Timeouts, FLYING, Idle, None, TimeoutScan, FLYING, None);
    ss, ts := Turn0(ss, ts, Timeouts, FLYING, TimeoutScan, None, TimeoutWant, h, None);
    ss, ts := Turn0(ss, ts, Timeouts, h, TimeoutWant, None, TimeoutCancel, h, None);
    ss, ts := Turn0(ss, ts, Timeouts, h, TimeoutCancel, None, TimeoutMark(true), CANCELLED, Some(Timeout));
  }

  // The last URB can come back before the flag is set. Read then, without flying_transfers_lock, it
  // would say CANCELLED.
  lemma ReadingUnlockedWouldMisreport() returns (ss: seq<State>, ts: seq<Tid>)
    ensures Run(ss, ts)
    ensures var s := ss[|ts|];
            s.pc == map[0 := TimeoutMark(true), 1 := AskTimedOut] && s.winner == Some(Timeout) && !s.x.timedOut
  {
    ss, ts := TimeoutRun();
    hide Run, UserRule, SubmitRule, TimeoutRule, DisconnectRule, CloseRule;
    ss, ts := Turn1(ss, ts, Reaps, CANCELLED, TimeoutMark(true), Idle, Some(Timeout), 1, AskTimedOut,
                    CANCELLED.(urbs := false), 1, []);
  }

  // ---------------------------------------------------------------- a disconnect after the timeout

  function Alone(x: Transfer, p1: Pc): State { Both(x, Idle, p1, Some(Timeout), 1, []) }

  // The disconnect finds the transfer in flight.
  lemma Picked(ss: seq<State>, ts: seq<Tid>, x: Transfer) returns (ss': seq<State>, ts': seq<Tid>)
    requires Run(ss, ts) && ss[|ts|] == Alone(x, Idle) && x.linked && x.inFlight
    ensures Run(ss', ts') && ss'[|ts'|] == Alone(x.(urbs := false, lost := true), Unlink(Disconnected))
  {
    hide Run, SubmitRule, UserRule, TimeoutRule, CloseRule, ReapRule, HoldsFlying, HoldsTransfer, Owns;
    ss', ts' := Turn1(ss, ts, Disconnects, x, Idle, Idle, Some(Timeout), 1, DiscScan, x, 1, []);
    ss', ts' := Turn1(ss', ts', Disconnects, x, Idle, DiscScan, Some(Timeout), 1, DiscLook, x, 1, []);
    ss', ts' := Turn1(ss', ts', Disconnects, x, Idle, DiscLook, Some(Timeout), 1, DiscPicked(true), x, 1, []);
    ss', ts' := Turn1(ss', ts', Disconnects, x, Idle, DiscPicked(true), Some(Timeout), 1, DiscFound, x, 1, []);
    ss', ts' := Turn1(ss', ts', Disconnects, x, Idle, DiscFound, Some(Timeout), 1, DiscClear, x, 1, []);
    ss', ts' := Turn1(ss', ts', Disconnects, x, Idle, DiscClear, Some(Timeout), 1, Unlink(Disconnected), x.(urbs := false, lost := true), 1, []);
  }

  // It is unlinked, and no longer in flight.
  lemma Unlinked(ss: seq<State>, ts: seq<Tid>, x: Transfer, st: Status) returns (ss': seq<State>, ts': seq<Tid>)
    requires Run(ss, ts) && ss[|ts|] == Alone(x, Unlink(st))
    ensures Run(ss', ts') && ss'[|ts'|] == Alone(x.(linked := false, inFlight := false), Report(st))
  {
    hide Run, SubmitRule, UserRule, TimeoutRule, DisconnectRule, CloseRule, Owns, Handling;
    var l := x.(linked := false);
    ss', ts' := Turn1(ss, ts, Reaps, x, Idle, Unlink(st), Some(Timeout), 1, Clear(st), l, 1, []);
    ss', ts' := Turn1(ss', ts', Reaps, l, Idle, Clear(st), Some(Timeout), 1, Report(st), l.(inFlight := false), 1, []);
  }

  // It is called back.
  lemma Reported(ss: seq<State>, ts: seq<Tid>, x: Transfer, st: Status) returns (ss': seq<State>, ts': seq<Tid>)
    requires Run(ss, ts) && ss[|ts|] == Alone(x, Report(st))
    ensures Run(ss', ts') && ss'[|ts'|].ends == [EndOf(st, Some(Timeout), x, true)]
  {
    hide Run, SubmitRule, UserRule, TimeoutRule, DisconnectRule, CloseRule, HoldsFlying, HoldsTransfer, Owns, Handling;
    ss', ts' := Turn1(ss, ts, Reaps, x, Idle, Report(st), Some(Timeout), 1, Idle, x, 1,
                      [EndOf(st, Some(Timeout), x, true)]);
  }

  // The timeout's cancel has succeeded and no URB has failed; the disconnect comes before the last
  // URB, and the report says so instead of TIMED_OUT.
  lemma DisconnectOvertakesTimeout() returns (ss: seq<State>, ts: seq<Tid>)
    ensures Run(ss, ts) && ss[|ts|].ends == [End(Disconnected, Some(Timeout), false, true, true)]
  {
    ss, ts := TimeoutRun();
    hide Run, UserRule, SubmitRule, DisconnectRule, CloseRule, ReapRule;
    var x := CANCELLED.(timedOut := true);
    ss, ts := Turn0(ss, ts, Timeouts, CANCELLED, TimeoutMark(true), Some(Timeout), TimeoutScan, x, Some(Timeout));
    ss, ts := Turn0(ss, ts, Timeouts, x, TimeoutScan, Some(Timeout), Idle, x, Some(Timeout));
    ss, ts := Picked(ss, ts, x);
    ss, ts := Unlinked(ss, ts, x.(urbs := false, lost := true), Disconnected);
    ss, ts := Reported(ss, ts, x.(urbs := false, lost := true, linked := false, inFlight := false), Disconnected);
  }
}
