// Who may handle events, and who wakes whom: the protocol of libusb_handle_events and libusb_close
// in libusb-andro/libusb/io.c and core.c, as threads that interleave at every lock operation. A
// section under event_data_lock is one step, because every access to that data holds the lock.

module EventProtocol {
  import opened Wrappers
  import opened EventData

  type Tid = nat

  // Where a thread stands. The lock it waits for or holds is noted at the right.
  datatype Pc =
    | Idle
    // libusb_try_lock_events
    | TryClose            // about to read device_close
    | TryLock             // about to trylock events_lock
    | GotLock             // events_lock; about to set event_handler_active
    // libusb_handle_events_timeout_completed and handle_events
    | Chosen              // events_lock; about to look at *completed
    | Rebuilding          // events_lock; about to bring the poll array up to date
    | Polling(fds: seq<Fd>)   // events_lock; in poll on these descriptors
    | Dispatching         // events_lock; the pipe was readable
    | Completing          // events_lock; between two completed transfers, event_data_lock dropped
    | Backend             // events_lock; in the backend or in handle_timeouts
    // libusb_unlock_events
    | Deactivating        // events_lock; about to clear event_handler_active
    | Releasing           // events_lock; about to unlock it
    | BroadcastLock       // wants event_waiters_lock
    | Broadcasting        // event_waiters_lock
    | BroadcastUnlock     // event_waiters_lock; broadcast done
    // the waiting half of libusb_handle_events_timeout_completed
    | WaitLock            // wants event_waiters_lock
    | WaitCheck           // event_waiters_lock; about to look at *completed
    | WaitClose           // event_waiters_lock; about to read device_close
    | WaitActive          // event_waiters_lock; about to read event_handler_active
    | WaitRetry           // event_waiters_lock; about to unlock and try again
    | Waiting             // event_waiters_lock; about to wait on the condition
    | Blocked             // in libusb_wait_for_event
    | Relock              // woken or timed out; wants event_waiters_lock
    | WaitDone            // event_waiters_lock; about to unlock
    // libusb_close, not called from an event handler
    | CloseLock           // counted in device_close; wants events_lock
    | CloseActive         // counted; events_lock; about to set event_handler_active
    | Closing             // counted; events_lock; in do_close
    | CloseDone           // counted; events_lock; about to uncount itself

  predicate HoldsEvents(p: Pc) {
    p.GotLock? || p.Chosen? || p.Rebuilding? || p.Polling? || p.Dispatching? || p.Completing? || p.Backend?
    || p.Deactivating? || p.Releasing? || p.CloseActive? || p.Closing? || p.CloseDone?
  }

  predicate HoldsWaiters(p: Pc) {
    p.Broadcasting? || p.BroadcastUnlock? || p.WaitCheck? || p.WaitClose? || p.WaitActive? || p.WaitRetry?
    || p.Waiting? || p.WaitDone?
  }

  predicate Counted(p: Pc) { p.CloseLock? || p.CloseActive? || p.Closing? || p.CloseDone? }

  // Between setting and clearing event_handler_active.
  predicate Active(p: Pc) {
    p.Chosen? || p.Rebuilding? || p.Polling? || p.Dispatching? || p.Completing? || p.Backend? || p.Deactivating?
    || p.Closing? || p.CloseDone?
  }

  // Still owes the waiters a broadcast.
  predicate Owes(p: Pc) { HoldsEvents(p) || p.BroadcastLock? || p.Broadcasting? || p.CloseLock? }

  predicate HandlingEvents(p: Pc) { p.Rebuilding? || p.Polling? || p.Dispatching? || p.Completing? || p.Backend? }

  datatype State = State(
    data: Data, pipeFd: Fd,
    eventsLock: Option<Tid>, waitersLock: Option<Tid>, handlerActive: bool,
    pc: map<Tid, Pc>)

  // ---------------------------------------------------------------- steps

  // One step of thread t from where it stands. Steps the code leaves to a caller's choice, to the
  // kernel or to the clock are disjunctions.
  ghost predicate ThreadStep(s: State, t: Tid, s': State)
    requires t in s.pc && Sane(s)
  {
    var p := s.pc[t];
    if p.Deactivating? || p.Releasing? || p.BroadcastLock? || p.Broadcasting? || p.BroadcastUnlock? then UnlockStep(s, t, s')
    else if p.WaitLock? || p.WaitCheck? || p.WaitClose? || p.WaitActive? || p.WaitRetry? || p.Waiting? || p.Blocked?
            || p.Relock? || p.WaitDone? then WaiterStep(s, t, s')
    else if Counted(p) then CloserStep(s, t, s')
    else if HandlingEvents(p) then HandlerStep(s, t, s')
    else EnterStep(s, t, s')
  }

  // entering, and libusb_try_lock_events
  ghost predicate EnterStep(s: State, t: Tid, s': State)
    requires t in s.pc
  {
    match s.pc[t]
    case Idle =>
      || s' == At(s, t, TryClose)
      || s' == At(s.(data := CloseBegin(s.data)), t, CloseLock)
    case TryClose => s' == At(s, t, if s.data.deviceClose > 0 then WaitLock else TryLock)
    case TryLock =>
      if s.eventsLock == None then s' == At(s.(eventsLock := Some(t)), t, GotLock)
      else s' == At(s, t, WaitLock)
    case GotLock => s' == At(s.(handlerActive := true), t, Chosen)
    case Chosen => s' == At(s, t, Rebuilding) || s' == At(s, t, Deactivating)
    case _ => false
  }

  // handle_events
  ghost predicate HandlerStep(s: State, t: Tid, s': State)
    requires t in s.pc && Sane(s)
  {
    match s.pc[t]
    case Rebuilding =>
      || (s' == At(s.(data := Rebuild(s.data, false)), t, Deactivating) && s.data.pollfdsModified)
      || var d := Rebuild(s.data, true);
         d.pollfds.Some? && s' == At(s.(data := d), t, Polling(d.pollfds.value))
    case Polling(_) =>
      || (s' == At(s, t, Dispatching) && s.data.pipe > 0)
      || (s' == At(s, t, Backend) && s.data.pipe == 0)    // a device event or the timeout
      || s' == At(s, t, Deactivating)                     // poll failed
    case Dispatching =>
      var d := Acknowledge(s.data);
      if d.completed > 0 then s' == At(s.(data := PopCompleted(d)), t, Completing)
      else s' == At(s.(data := ClearIfLast(d)), t, Backend)
    case Completing =>
      || (s.data.completed > 0 && s' == At(s.(data := PopCompleted(s.data)), t, Completing))
      || s' == At(s.(data := ClearIfLast(s.data)), t, Backend)
    case Backend => s' == At(s, t, Deactivating)
    case _ => false
  }

  // libusb_unlock_events
  ghost predicate UnlockStep(s: State, t: Tid, s': State)
    requires t in s.pc
  {
    match s.pc[t]
    case Deactivating => s' == At(s.(handlerActive := false), t, Releasing)
    case Releasing => s' == At(s.(eventsLock := None), t, BroadcastLock)
    case BroadcastLock => s.waitersLock == None && s' == At(s.(waitersLock := Some(t)), t, Broadcasting)
    case Broadcasting => s' == At(WakeAll(s), t, BroadcastUnlock)
    case BroadcastUnlock => s' == At(s.(waitersLock := None), t, Idle)
    case _ => false
  }

  // the waiting half of libusb_handle_events_timeout_completed
  ghost predicate WaiterStep(s: State, t: Tid, s': State)
    requires t in s.pc
  {
    match s.pc[t]
    case WaitLock => s.waitersLock == None && s' == At(s.(waitersLock := Some(t)), t, WaitCheck)
    case WaitCheck => s' == At(s, t, WaitClose) || s' == At(s, t, WaitDone)
    case WaitClose => s' == At(s, t, if s.data.deviceClose > 0 then Waiting else WaitActive)
    case WaitActive => s' == At(s, t, if s.handlerActive then Waiting else WaitRetry)
    case WaitRetry => s' == At(s.(waitersLock := None), t, TryClose)
    case Waiting => s' == At(s.(waitersLock := None), t, Blocked)
    case Blocked => s' == At(s, t, Relock)                // the timeout, or a spurious wake-up
    case Relock => s.waitersLock == None && s' == At(s.(waitersLock := Some(t)), t, WaitDone)
    case WaitDone => s' == At(s.(waitersLock := None), t, Idle)
    case _ => false
  }

  // libusb_close
  ghost predicate CloserStep(s: State, t: Tid, s': State)
    requires t in s.pc && Sane(s)
  {
    match s.pc[t]
    case CloseLock => s.eventsLock == None && s' == At(s.(eventsLock := Some(t)), t, CloseActive)
    case CloseActive => s' == At(s.(handlerActive := true), t, Closing)
    case Closing => s' == At(s, t, CloseDone)
    case CloseDone => s' == At(s.(data := CloseEnd(s.data)), t, Deactivating)
    case _ => false
  }

  function At(s: State, t: Tid, p: Pc): State { s.(pc := s.pc[t := p]) }

  function WakeAll(s: State): State {
    s.(pc := map u | u in s.pc :: if s.pc[u].Blocked? then Relock else s.pc[u])
  }

  // What any code may do to the event data while event_data_lock is free.
  datatype Outside = AddFd(fd: Fd) | RemoveFd(fd: Fd) | UserInterrupt | HotplugMessage | HotplugDereg | Completion

  ghost predicate OutsideStep(s: State, o: Outside, s': State)
    requires s.data.cnt == |s.data.ipollfds|
  {
    match o
    case AddFd(fd) => s' == s.(data := AddPollfd(s.data, fd))
    case RemoveFd(fd) => fd != s.pipeFd && s' == s.(data := RemovePollfd(s.data, fd))
    case UserInterrupt => s' == s.(data := Interrupt(s.data))
    case HotplugMessage => s' == s.(data := HotplugNotify(s.data))
    case HotplugDereg => s' == s.(data := HotplugDeregister(s.data))
    case Completion => s' == s.(data := SignalCompletion(s.data))
  }

  datatype Step = Thread(t: Tid) | Env(o: Outside)

  ghost predicate Next(s: State, e: Step, s': State)
    requires Sane(s)
  {
    match e
    case Thread(t) => t in s.pc && ThreadStep(s, t, s')
    case Env(o) => OutsideStep(s, o, s')
  }

  ghost predicate Init(s: State) {
    && s.data == AddPollfd(Data(false, false, false, 0, 0, 0, 0, [], 0, None), s.pipeFd)
    && s.eventsLock == None && s.waitersLock == None && !s.handlerActive
    && forall t :: t in s.pc ==> s.pc[t] == Idle
  }

  // ---------------------------------------------------------------- the invariant

  // Enough for every step to be defined: the pipe is never read empty (that read would block
  // for ever with event_data_lock held) and device_close is never counted below zero.
  ghost predicate Sane(s: State) {
    && s.data.cnt == |s.data.ipollfds|
    && PipeShows(s.data)
    && (forall t :: t in s.pc && (s.pc[t].Dispatching? || s.pc[t].Completing?) ==> s.data.pipe > 0)
    && (forall t :: t in s.pc && s.pc[t].CloseDone? ==> s.data.deviceClose > 0)
  }

  ghost predicate LocksHeld(s: State) {
    && (forall t :: t in s.pc ==> (HoldsEvents(s.pc[t]) <==> s.eventsLock == Some(t)))
    && (forall t :: t in s.pc ==> (HoldsWaiters(s.pc[t]) <==> s.waitersLock == Some(t)))
    && (s.eventsLock.Some? ==> s.eventsLock.value in s.pc)
    && (s.waitersLock.Some? ==> s.waitersLock.value in s.pc)
  }

  ghost predicate ActiveHeld(s: State) {
    && (s.handlerActive ==> s.eventsLock.Some? && s.eventsLock.value in s.pc && Active(s.pc[s.eventsLock.value]))
    && (forall t :: t in s.pc && Active(s.pc[t]) ==> s.handlerActive)
  }

  function Closers(pc: map<Tid, Pc>): set<Tid> { set t | t in pc && Counted(pc[t]) }

  ghost predicate CloseCounted(s: State) { s.data.deviceClose == |Closers(s.pc)| }

  // Each thread that waits, or has made up its mind to, is owed a broadcast by another thread.
  ghost predicate WaitersOwed(s: State) {
    forall w :: w in s.pc && (s.pc[w].Blocked? || s.pc[w].Waiting?) ==> SomeoneOwes(s)
  }

  ghost predicate SomeoneOwes(s: State) { exists u :: u in s.pc && Owes(s.pc[u]) }

  ghost predicate ArraysGood(s: State) {
    && CacheAgrees(s.data, s.pipeFd)
    && (forall t :: t in s.pc && s.pc[t].Polling? ==> s.pc[t].fds != [] && s.pc[t].fds[0] == s.pipeFd)
    && (forall t :: t in s.pc && s.pc[t].Polling? && !s.data.pollfdsModified ==> s.pc[t].fds == s.data.ipollfds)
  }

  ghost predicate Inv(s: State) {
    Sane(s) && LocksHeld(s) && ActiveHeld(s) && CloseCounted(s) && WaitersOwed(s) && ArraysGood(s)
  }

  lemma InitHolds(s: State)
    requires Init(s)
    ensures Inv(s) && PipeExact(s.data)
  {
    assert Closers(s.pc) == {};
  }

  // ---------------------------------------------------------------- preservation

  // What a step of t does to the other threads: only a broadcast moves them.
  ghost predicate Moves(s: State, t: Tid, s': State)
    requires t in s.pc
  {
    && s'.pc.Keys == s.pc.Keys && s'.pipeFd == s.pipeFd
    && (forall u :: u in s.pc && u != t ==>
          s'.pc[u] == s.pc[u] || (s.pc[t].Broadcasting? && s.pc[u].Blocked? && s'.pc[u].Relock?))
    && (forall u :: u in s.pc && s.pc[t].Broadcasting? ==> !s'.pc[u].Blocked?)
  }

  // What it does to the locks, seen from t's two positions p and p'.
  predicate LockEffect(s: State, t: Tid, p: Pc, p': Pc, s': State) {
    && LockShape(HoldsEvents(p), s.eventsLock, t, HoldsEvents(p'), s'.eventsLock)
    && LockShape(HoldsWaiters(p), s.waitersLock, t, HoldsWaiters(p'), s'.waitersLock)
  }

  // What it does to the flag and the count, and whom it leaves owing or waiting.
  predicate Effect(s: State, p: Pc, p': Pc, s': State) {
    && (if s'.handlerActive == s.handlerActive then
          Active(p') == Active(p) || (HoldsEvents(p) && HoldsEvents(p') && Active(p') == s.handlerActive)
        else HoldsEvents(p) && HoldsEvents(p') && Active(p') == s'.handlerActive)
    && s'.data.deviceClose == s.data.deviceClose + (if Counted(p') then 1 else 0) - (if Counted(p) then 1 else 0)
    && (Owes(p) && !p.Broadcasting? ==> Owes(p'))
    && (p'.Waiting? ==> !p.Broadcasting? && (s.data.deviceClose > 0 || s.handlerActive))
    && (p'.Blocked? ==> p.Waiting?)
  }

  ghost predicate Shape(s: State, t: Tid, s': State)
    requires t in s.pc
  {
    Moves(s, t, s') && LockEffect(s, t, s.pc[t], s'.pc[t], s') && Effect(s, s.pc[t], s'.pc[t], s')
  }

  lemma EnterMoves(s: State, t: Tid, s': State)
    requires t in s.pc && EnterStep(s, t, s')
    ensures Moves(s, t, s')
  {
  }

  lemma EnterLocks(s: State, t: Tid, s': State)
    requires t in s.pc && EnterStep(s, t, s') && t in s'.pc
    ensures LockEffect(s, t, s.pc[t], s'.pc[t], s')
  {
  }

  lemma EnterEffect(s: State, t: Tid, s': State)
    requires t in s.pc && EnterStep(s, t, s') && t in s'.pc
    ensures Effect(s, s.pc[t], s'.pc[t], s')
  {
  }

  lemma HandlerMoves(s: State, t: Tid, s': State)
    requires Sane(s) && t in s.pc && HandlerStep(s, t, s')
    ensures Moves(s, t, s')
  {
  }

  lemma HandlerLocks(s: State, t: Tid, s': State)
    requires Sane(s) && t in s.pc && HandlerStep(s, t, s') && t in s'.pc
    ensures LockEffect(s, t, s.pc[t], s'.pc[t], s')
  {
  }

  lemma HandlerEffect(s: State, t: Tid, s': State)
    requires Sane(s) && t in s.pc && HandlerStep(s, t, s') && t in s'.pc
    ensures Effect(s, s.pc[t], s'.pc[t], s')
  {
  }

  lemma UnlockMoves(s: State, t: Tid, s': State)
    requires t in s.pc && UnlockStep(s, t, s')
    ensures Moves(s, t, s')
  {
  }

  lemma UnlockLocks(s: State, t: Tid, s': State)
    requires t in s.pc && UnlockStep(s, t, s') && t in s'.pc
    ensures LockEffect(s, t, s.pc[t], s'.pc[t], s')
  {
  }

  lemma UnlockEffect(s: State, t: Tid, s': State)
    requires t in s.pc && UnlockStep(s, t, s') && t in s'.pc
    ensures Effect(s, s.pc[t], s'.pc[t], s')
  {
  }

  lemma WaiterMoves(s: State, t: Tid, s': State)
    requires t in s.pc && WaiterStep(s, t, s')
    ensures Moves(s, t, s')
  {
  }

  lemma WaiterLocks(s: State, t: Tid, s': State)
    requires t in s.pc && WaiterStep(s, t, s') && t in s'.pc
    ensures LockEffect(s, t, s.pc[t], s'.pc[t], s')
  {
  }

  lemma WaiterEffect(s: State, t: Tid, s': State)
    requires t in s.pc && WaiterStep(s, t, s') && t in s'.pc
    ensures Effect(s, s.pc[t], s'.pc[t], s')
  {
  }

  lemma CloserMoves(s: State, t: Tid, s': State)
    requires Sane(s) && t in s.pc && CloserStep(s, t, s')
    ensures Moves(s, t, s')
  {
  }

  lemma CloserLocks(s: State, t: Tid, s': State)
    requires Sane(s) && t in s.pc && CloserStep(s, t, s') && t in s'.pc
    ensures LockEffect(s, t, s.pc[t], s'.pc[t], s')
  {
  }

  lemma CloserEffect(s: State, t: Tid, s': State)
    requires Sane(s) && t in s.pc && CloserStep(s, t, s') && t in s'.pc
    ensures Effect(s, s.pc[t], s'.pc[t], s')
  {
  }

  lemma StepHasShape(s: State, t: Tid, s': State)
    requires Sane(s) && t in s.pc && ThreadStep(s, t, s')
    ensures Shape(s, t, s')
  {
    hide Moves, LockEffect, Effect, Sane, HandlerStep, EnterStep, UnlockStep, WaiterStep, CloserStep;
    if EnterStep(s, t, s') { EnterMoves(s, t, s'); EnterLocks(s, t, s'); EnterEffect(s, t, s'); }
    else if UnlockStep(s, t, s') { UnlockMoves(s, t, s'); UnlockLocks(s, t, s'); UnlockEffect(s, t, s'); }
    else if WaiterStep(s, t, s') { WaiterMoves(s, t, s'); WaiterLocks(s, t, s'); WaiterEffect(s, t, s'); }
    else if CloserStep(s, t, s') { CloserMoves(s, t, s'); CloserLocks(s, t, s'); CloserEffect(s, t, s'); }
    else { HandlerMoves(s, t, s'); HandlerLocks(s, t, s'); HandlerEffect(s, t, s'); }
  }

  // What a step of t does to the event data.
  ghost predicate DataShape(s: State, t: Tid, s': State)
    requires t in s.pc && t in s'.pc
  {
    && s'.data.cnt == |s'.data.ipollfds|
    && PipeShows(s'.data)
    && CacheAgrees(s'.data, s.pipeFd)
    && (s'.data.pipe < s.data.pipe ==> HoldsEvents(s.pc[t]))
    && (s'.pc[t].Dispatching? || s'.pc[t].Completing? ==> s'.data.pipe > 0)
    && (s'.pc[t].Polling? ==> s'.pc[t].fds == s'.data.ipollfds)
    && s'.data.ipollfds == s.data.ipollfds
    && (s'.data.pollfdsModified != s.data.pollfdsModified ==> s.pc[t].Rebuilding?)
    && (PipeExact(s.data) ==> PipeExact(s'.data))
  }

  lemma HandlerHasDataShape(s: State, t: Tid, s': State)
    requires Sane(s) && ArraysGood(s) && t in s.pc && HandlerStep(s, t, s')
    ensures DataShape(s, t, s')
  {
  }

  lemma EnterOrCloserHasDataShape(s: State, t: Tid, s': State)
    requires Sane(s) && ArraysGood(s) && t in s.pc && (EnterStep(s, t, s') || CloserStep(s, t, s'))
    ensures DataShape(s, t, s')
  {
  }

  lemma OthersHaveDataShape(s: State, t: Tid, s': State)
    requires Sane(s) && ArraysGood(s) && t in s.pc && (UnlockStep(s, t, s') || WaiterStep(s, t, s'))
    ensures DataShape(s, t, s')
  {
  }

  lemma StepHasDataShape(s: State, t: Tid, s': State)
    requires Sane(s) && ArraysGood(s) && t in s.pc && ThreadStep(s, t, s') && t in s'.pc
    ensures DataShape(s, t, s')
  {
    hide DataShape, Sane, ArraysGood, HandlerStep, EnterStep, UnlockStep, WaiterStep, CloserStep;
    if EnterStep(s, t, s') || CloserStep(s, t, s') { EnterOrCloserHasDataShape(s, t, s'); }
    else if UnlockStep(s, t, s') || WaiterStep(s, t, s') { OthersHaveDataShape(s, t, s'); }
    else { HandlerHasDataShape(s, t, s'); }
  }

  lemma ThreadKeepsLocks(s: State, t: Tid, s': State)
    requires LocksHeld(s) && t in s.pc && Shape(s, t, s')
    ensures LocksHeld(s')
  {
  }

  lemma ThreadKeepsActive(s: State, t: Tid, s': State)
    requires LocksHeld(s) && ActiveHeld(s) && t in s.pc && Shape(s, t, s')
    ensures ActiveHeld(s')
  {
  }

  lemma ThreadKeepsCounted(s: State, t: Tid, s': State)
    requires CloseCounted(s) && t in s.pc && Shape(s, t, s')
    ensures CloseCounted(s')
  {
    assert forall u :: u in s.pc && u != t ==> Counted(s'.pc[u]) == Counted(s.pc[u]);
    CountOne(s.pc, t, s'.pc);
  }

  lemma CountOne(pc: map<Tid, Pc>, t: Tid, pc': map<Tid, Pc>)
    requires pc'.Keys == pc.Keys && t in pc
    requires forall u :: u in pc && u != t ==> Counted(pc'[u]) == Counted(pc[u])
    ensures |Closers(pc')| == |Closers(pc)| + (if Counted(pc'[t]) then 1 else 0) - (if Counted(pc[t]) then 1 else 0)
  {
    hide Counted;
    var c, c' := Closers(pc), Closers(pc');
    assert c - {t} == c' - {t};
    assert |c - {t}| == |c| - (if Counted(pc[t]) then 1 else 0);
    assert |c' - {t}| == |c'| - (if Counted(pc'[t]) then 1 else 0);
  }

  // Nobody is about to wait while another thread broadcasts: both would hold event_waiters_lock.
  lemma ThreadKeepsOwed(s: State, t: Tid, s': State)
    requires LocksHeld(s) && ActiveHeld(s) && CloseCounted(s) && WaitersOwed(s) && t in s.pc && Shape(s, t, s')
    ensures WaitersOwed(s')
  {
    forall w | w in s'.pc && (s'.pc[w].Blocked? || s'.pc[w].Waiting?) ensures SomeoneOwes(s') {
      if w == t && s'.pc[t].Waiting? {
        if s.handlerActive {
          assert Owes(s.pc[s.eventsLock.value]);
          OwingLasts(s, t, s', s.eventsLock.value);
        } else {
          var c :| c in Closers(s.pc);
          OwingLasts(s, t, s', c);
        }
      } else {
        assert s.pc[w].Blocked? || s.pc[w].Waiting?;
        assert SomeoneOwes(s);
        var u :| u in s.pc && Owes(s.pc[u]);
        assert !s.pc[t].Broadcasting?;
        OwingLasts(s, t, s', u);
      }
    }
  }

  lemma OwingLasts(s: State, t: Tid, s': State, u: Tid)
    requires t in s.pc && u in s.pc && Shape(s, t, s') && Owes(s.pc[u]) && !s.pc[t].Broadcasting?
    ensures SomeoneOwes(s')
  {
    assert u in s'.pc && Owes(s'.pc[u]);
  }

  // Only the holder of events_lock reads from the pipe, so nobody takes the handler's byte away.
  lemma ThreadKeepsSane(s: State, t: Tid, s': State)
    requires Sane(s) && LocksHeld(s) && t in s.pc && Shape(s, t, s') && DataShape(s, t, s') && CloseCounted(s')
    ensures Sane(s')
  {
    forall u | u in s'.pc && s'.pc[u].CloseDone? ensures s'.data.deviceClose > 0 {
      assert u in Closers(s'.pc);
    }
  }

  lemma ThreadKeepsArrays(s: State, t: Tid, s': State)
    requires ArraysGood(s) && LocksHeld(s) && t in s.pc && Shape(s, t, s') && DataShape(s, t, s')
    ensures ArraysGood(s')
  {
  }

  lemma ThreadKeeps(s: State, t: Tid, s': State)
    requires Inv(s) && t in s.pc && ThreadStep(s, t, s')
    ensures Inv(s')
    ensures PipeExact(s.data) ==> PipeExact(s'.data)
  {
    StepHasShape(s, t, s');
    assert t in s'.pc;
    StepHasDataShape(s, t, s');
    hide ThreadStep, Shape, LocksHeld, ActiveHeld, CloseCounted, WaitersOwed, ArraysGood, Sane;
    ThreadKeepsLocks(s, t, s');
    ThreadKeepsActive(s, t, s');
    ThreadKeepsCounted(s, t, s');
    ThreadKeepsOwed(s, t, s');
    ThreadKeepsSane(s, t, s');
    ThreadKeepsArrays(s, t, s');
  }

  lemma EnvKeeps(s: State, o: Outside, s': State)
    requires Inv(s) && OutsideStep(s, o, s')
    ensures Inv(s')
    ensures PipeExact(s.data) && !o.Completion? ==> PipeExact(s'.data)
  {
  }

  lemma NextKeeps(s: State, e: Step, s': State)
    requires Inv(s) && Next(s, e, s')
    ensures Inv(s')
    ensures PipeExact(s.data) && e != Env(Completion) ==> PipeExact(s'.data)
  {
    hide Inv, ThreadStep, OutsideStep, PipeExact;
    match e
    case Thread(t) => ThreadKeeps(s, t, s');
    case Env(o) => EnvKeeps(s, o, s');
  }

  // ---------------------------------------------------------------- runs

  // Steps are defined in Sane states only; a state that is not Sane may be followed by any other.
  ghost predicate Run(ss: seq<State>, es: seq<Step>) {
    && |ss| == |es| + 1 && Init(ss[0])
    && forall i :: 0 <= i < |es| && Sane(ss[i]) ==> Next(ss[i], es[i], ss[i + 1])
  }

  lemma {:induction false} RunKeeps(ss: seq<State>, es: seq<Step>, n: nat)
    requires Run(ss, es) && n < |ss|
    ensures Inv(ss[n])
    ensures Env(Completion) !in es[..n] ==> PipeExact(ss[n].data)
  {
    hide Init, Next, PipeExact, LocksHeld, ActiveHeld, CloseCounted, WaitersOwed, ArraysGood;
    if n == 0 {
      InitHolds(ss[0]);
    } else {
      RunKeeps(ss, es, n - 1);
      assert es[..n] == es[..n - 1] + [es[n - 1]];
      NextKeeps(ss[n - 1], es[n - 1], ss[n]);
    }
  }

  // ---------------------------------------------------------------- no lost wake-up

  // A thread in libusb_wait_for_event is always owed a broadcast by another thread.
  lemma NoLostWakeup(ss: seq<State>, es: seq<Step>, n: nat, w: Tid)
    requires Run(ss, es) && n < |ss| && w in ss[n].pc && ss[n].pc[w].Blocked?
    ensures exists u :: u in ss[n].pc && u != w && Owes(ss[n].pc[u])
  {
    RunKeeps(ss, es, n);
    assert SomeoneOwes(ss[n]);
  }

  ghost predicate NobodyBlocked(s: State) { forall w :: w in s.pc ==> !s.pc[w].Blocked? }

  // The debt is paid by a broadcast and in no other way, and a broadcast leaves nobody blocked.
  lemma DebtLastsUntilBroadcast(ss: seq<State>, es: seq<Step>, n: nat, u: Tid)
    requires Run(ss, es) && n + 1 < |ss| && u in ss[n].pc && Owes(ss[n].pc[u])
    ensures u in ss[n + 1].pc
    ensures Owes(ss[n + 1].pc[u]) || (es[n] == Thread(u) && NobodyBlocked(ss[n + 1]))
  {
    var s, s' := ss[n], ss[n + 1];
    RunKeeps(ss, es, n);
    hide Init;
    assert Next(s, es[n], s');
    if es[n].Thread? {
      var t := es[n].t;
      StepHasShape(s, t, s');
      hide Next, Inv, LockEffect;
      if t == u && s.pc[u].Broadcasting? {
        assert NobodyBlocked(s');
      }
    }
  }

  // How many of its own steps a thread is from its broadcast, completed transfers aside.
  function Distance(p: Pc): nat {
    match p
    case CloseLock => 8
    case CloseActive => 7
    case Closing => 6
    case GotLock => 10
    case Chosen => 9
    case Rebuilding => 8
    case Polling(_) => 7
    case Dispatching => 6
    case Completing => 5
    case CloseDone => 5
    case Backend => 4
    case Deactivating => 3
    case Releasing => 2
    case BroadcastLock => 1
    case _ => 0
  }

  predicate Nearer(p: Pc, n: nat, p': Pc, n': nat) {
    Distance(p') < Distance(p) || (p == p' == Completing && n' < n)
  }

  lemma HandlerProgresses(s: State, u: Tid, s': State)
    requires Sane(s) && u in s.pc && u in s'.pc && HandlerStep(s, u, s')
    ensures Nearer(s.pc[u], s.data.completed, s'.pc[u], s'.data.completed)
  {
    hide PipeShows;
  }

  lemma OthersProgress(s: State, u: Tid, s': State)
    requires Sane(s) && u in s.pc && u in s'.pc && Owes(s.pc[u]) && !s.pc[u].Broadcasting?
    requires EnterStep(s, u, s') || UnlockStep(s, u, s') || CloserStep(s, u, s')
    ensures Nearer(s.pc[u], s.data.completed, s'.pc[u], s'.data.completed)
  {
  }

  // A debtor comes closer to its broadcast with each step of its own; only completed transfers,
  // which the Linux backend never queues, let it stay where it is, and each such step uses one up.
  lemma DebtorProgresses(s: State, u: Tid, s': State)
    requires Inv(s) && u in s.pc && Owes(s.pc[u]) && !s.pc[u].Broadcasting? && ThreadStep(s, u, s')
    ensures u in s'.pc && Owes(s'.pc[u])
    ensures Nearer(s.pc[u], s.data.completed, s'.pc[u], s'.data.completed)
  {
    StepHasShape(s, u, s');
    hide Sane, LocksHeld, ActiveHeld, CloseCounted, WaitersOwed, ArraysGood, LockEffect;
    hide HandlerStep, CloserStep, EnterStep, UnlockStep, Nearer;
    assert !WaiterStep(s, u, s');
    if HandlerStep(s, u, s') { HandlerProgresses(s, u, s'); } else { OthersProgress(s, u, s'); }
  }

  // ---------------------------------------------------------------- no deadlock

  ghost predicate CanStep(s: State, t: Tid)
    requires Sane(s) && t in s.pc
  {
    exists s' :: ThreadStep(s, t, s')
  }

  // The thread holding the lock that t wants, if t wants one that is held.
  function Obstacle(s: State, t: Tid): Option<Tid>
    requires t in s.pc
  {
    match s.pc[t]
    case CloseLock => s.eventsLock
    case BroadcastLock | WaitLock | Relock => s.waitersLock
    case _ => None
  }

  // One of the steps t can take.
  ghost function SomeStep(s: State, t: Tid): State
    requires Sane(s) && t in s.pc
  {
    match s.pc[t]
    case Idle => At(s, t, TryClose)
    case TryClose => At(s, t, if s.data.deviceClose > 0 then WaitLock else TryLock)
    case TryLock => if s.eventsLock == None then At(s.(eventsLock := Some(t)), t, GotLock) else At(s, t, WaitLock)
    case GotLock => At(s.(handlerActive := true), t, Chosen)
    case Chosen => At(s, t, Rebuilding)
    case Rebuilding =>
      var d := Rebuild(s.data, true);
      At(s.(data := d), t, if d.pollfds.Some? then Polling(d.pollfds.value) else Deactivating)
    case Polling(_) => At(s, t, if s.data.pipe > 0 then Dispatching else Backend)
    case Dispatching =>
      var d := Acknowledge(s.data);
      if d.completed > 0 then At(s.(data := PopCompleted(d)), t, Completing) else At(s.(data := ClearIfLast(d)), t, Backend)
    case Completing => At(s.(data := ClearIfLast(s.data)), t, Backend)
    case Backend => At(s, t, Deactivating)
    case Deactivating => At(s.(handlerActive := false), t, Releasing)
    case Releasing => At(s.(eventsLock := None), t, BroadcastLock)
    case BroadcastLock => At(s.(waitersLock := Some(t)), t, Broadcasting)
    case Broadcasting => At(WakeAll(s), t, BroadcastUnlock)
    case BroadcastUnlock | WaitDone => At(s.(waitersLock := None), t, Idle)
    case WaitLock => At(s.(waitersLock := Some(t)), t, WaitCheck)
    case WaitCheck => At(s, t, WaitClose)
    case WaitClose => At(s, t, if s.data.deviceClose > 0 then Waiting else WaitActive)
    case WaitActive => At(s, t, if s.handlerActive then Waiting else WaitRetry)
    case WaitRetry => At(s.(waitersLock := None), t, TryClose)
    case Waiting => At(s.(waitersLock := None), t, Blocked)
    case Blocked => At(s, t, Relock)
    case Relock => At(s.(waitersLock := Some(t)), t, WaitDone)
    case CloseLock => At(s.(eventsLock := Some(t)), t, CloseActive)
    case CloseActive => At(s.(handlerActive := true), t, Closing)
    case Closing => At(s, t, CloseDone)
    case CloseDone => At(s.(data := CloseEnd(s.data)), t, Deactivating)
  }

  lemma FreeThreadsStep(s: State, t: Tid)
    requires Inv(s) && t in s.pc && Obstacle(s, t) == None
    ensures CanStep(s, t)
  {
    hide PipeShows, LocksHeld, ActiveHeld, CloseCounted, WaitersOwed;
    assert ThreadStep(s, t, SomeStep(s, t));
  }

  // Whoever holds a lock can go on, and so can whoever wants a free lock or none.
  lemma NoDeadlock(ss: seq<State>, es: seq<Step>, n: nat, t: Tid)
    requires Run(ss, es) && n < |ss| && t in ss[n].pc
    ensures Sane(ss[n])
    ensures Obstacle(ss[n], t) == None ==> CanStep(ss[n], t)
    ensures Obstacle(ss[n], t).Some? ==>
              var h := Obstacle(ss[n], t).value;
              h in ss[n].pc && Obstacle(ss[n], h) == None && CanStep(ss[n], h)
  {
    var s := ss[n];
    RunKeeps(ss, es, n);
    if Obstacle(s, t) == None {
      FreeThreadsStep(s, t);
    } else {
      FreeThreadsStep(s, Obstacle(s, t).value);
    }
  }

  // ---------------------------------------------------------------- one handler

  // At most one thread at a time handles events or closes a device.
  lemma SingleHandler(ss: seq<State>, es: seq<Step>, n: nat, t: Tid, u: Tid)
    requires Run(ss, es) && n < |ss| && t in ss[n].pc && u in ss[n].pc && t != u
    ensures !((HandlingEvents(ss[n].pc[t]) || ss[n].pc[t].Closing?) && (HandlingEvents(ss[n].pc[u]) || ss[n].pc[u].Closing?))
  {
    RunKeeps(ss, es, n);
  }

  // ---------------------------------------------------------------- who closes goes first

  // About to try events_lock, or to go back and try.
  predicate Trying(p: Pc) { p.TryLock? || p.WaitActive? || p.WaitRetry? }

  lemma EnterStaysOut(s: State, t: Tid, s': State)
    requires t in s.pc && EnterStep(s, t, s') && s.data.deviceClose > 0 && !s.pc[t].TryLock?
    ensures t in s'.pc && !Trying(s'.pc[t])
  {
  }

  lemma WaiterStaysOut(s: State, t: Tid, s': State)
    requires t in s.pc && WaiterStep(s, t, s') && s.data.deviceClose > 0 && !Trying(s.pc[t])
    ensures t in s'.pc && !Trying(s'.pc[t])
  {
  }

  lemma OthersStayOut(s: State, t: Tid, s': State)
    requires Sane(s) && t in s.pc && (HandlerStep(s, t, s') || UnlockStep(s, t, s') || CloserStep(s, t, s'))
    ensures t in s'.pc && !Trying(s'.pc[t])
  {
    hide PipeShows;
  }

  lemma NextStaysOut(s: State, e: Step, s': State, t: Tid)
    requires Inv(s) && Next(s, e, s') && t in s.pc && s.data.deviceClose > 0 && !Trying(s.pc[t])
    ensures t in s'.pc && !Trying(s'.pc[t])
  {
    if e == Thread(t) {
      hide Inv, EnterStep, WaiterStep, HandlerStep, UnlockStep, CloserStep, Trying;
      if EnterStep(s, t, s') { assert !s.pc[t].TryLock? by { NotTrying(s.pc[t]); } EnterStaysOut(s, t, s'); }
      else if WaiterStep(s, t, s') { WaiterStaysOut(s, t, s'); }
      else { OthersStayOut(s, t, s'); }
    } else if e.Thread? {
      StepHasShape(s, e.t, s');
      hide Inv, Next, LockEffect, Effect;
    }
  }

  lemma NotTrying(p: Pc)
    requires !Trying(p)
    ensures !p.TryLock?
  {
  }

  // While a thread is counted as closing, a thread that is not already about to try events_lock does not
  // come to try it, and so handles no events.
  lemma {:induction false} HandlersYield(ss: seq<State>, es: seq<Step>, m: nat, n: nat, t: Tid)
    requires Run(ss, es) && m <= n < |ss| && t in ss[m].pc && !Trying(ss[m].pc[t])
    requires forall i :: m <= i < n ==> ss[i].data.deviceClose > 0
    ensures t in ss[n].pc && !Trying(ss[n].pc[t])
  {
    hide Inv, Init, Next, Trying;
    if m < n {
      HandlersYield(ss, es, m, n - 1, t);
      RunKeeps(ss, es, n - 1);
      assert Sane(ss[n - 1]) by { InvIsSane(ss[n - 1]); }
      NextStaysOut(ss[n - 1], es[n - 1], ss[n], t);
    }
  }

  lemma InvIsSane(s: State)
    requires Inv(s)
    ensures Sane(s)
  {
    hide Sane, LocksHeld, ActiveHeld, CloseCounted, WaitersOwed, ArraysGood;
  }

  // So each of them gets in front of the one that closes once at most.
  lemma OvertakesOnce(ss: seq<State>, es: seq<Step>, i: nat, j: nat, t: Tid)
    requires Run(ss, es) && i < j < |es| && t in ss[i].pc && t in ss[i + 1].pc && t in ss[j].pc
    requires forall k :: i < k < j ==> ss[k].data.deviceClose > 0
    requires ss[i].pc[t].TryLock? && ss[i + 1].pc[t].GotLock?
    ensures !ss[j].pc[t].TryLock?
  {
    HandlersYield(ss, es, i + 1, j, t);
  }

  // ---------------------------------------------------------------- the event pipe

  // Pending events can be seen on the pipe; without completed transfers there is exactly one byte
  // while events are pending, and none otherwise.
  lemma PipeAgreesWithEvents(ss: seq<State>, es: seq<Step>, n: nat)
    requires Run(ss, es) && n < |ss|
    ensures Pending(ss[n].data) ==> ss[n].data.pipe > 0
    ensures Env(Completion) !in es ==> ss[n].data.pipe == if Pending(ss[n].data) then 1 else 0
  {
    RunKeeps(ss, es, n);
  }

  // Where the pipe is about to be read there is a byte to read. The read blocks on an empty pipe,
  // and would do so with event_data_lock held.
  lemma ClearNeverBlocks(ss: seq<State>, es: seq<Step>, n: nat, t: Tid)
    requires Run(ss, es) && n < |ss| && t in ss[n].pc
    ensures var s, p := ss[n], ss[n].pc[t];
            p.Dispatching? || p.Completing? || p.CloseDone? || (p.Rebuilding? && s.data.pollfdsModified) ==> s.data.pipe > 0
  {
    RunKeeps(ss, es, n);
  }

  // ---------------------------------------------------------------- polling

  // With no change pending the array is the list, in order, led by the pipe.
  lemma ArrayIsList(ss: seq<State>, es: seq<Step>, n: nat)
    requires Run(ss, es) && n < |ss|
    ensures ss[n].data.cnt == |ss[n].data.ipollfds| > 0 && ss[n].data.ipollfds[0] == ss[n].pipeFd
    ensures !ss[n].data.pollfdsModified ==> ss[n].data.pollfds == Some(ss[n].data.ipollfds)
  {
    RunKeeps(ss, es, n);
  }

  // A handler sleeps in poll only on an up-to-date array that starts with the pipe, and only
  // while no thread waits to close a device.
  lemma PollSleepsOnlyWhenFree(ss: seq<State>, es: seq<Step>, n: nat, t: Tid)
    requires Run(ss, es) && n < |ss| && t in ss[n].pc && ss[n].pc[t].Polling? && ss[n].data.pipe == 0
    ensures ss[n].pc[t].fds == ss[n].data.ipollfds && ss[n].pc[t].fds != [] && ss[n].pc[t].fds[0] == ss[n].pipeFd
    ensures forall u :: u in ss[n].pc ==> !Counted(ss[n].pc[u])
  {
    var s := ss[n];
    RunKeeps(ss, es, n);
    assert Closers(s.pc) == {};
    assert forall u :: u in s.pc ==> (Counted(s.pc[u]) <==> u in Closers(s.pc));
  }
}
