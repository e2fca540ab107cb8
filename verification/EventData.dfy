// The event data of a libusb context that event_data_lock protects: pending-event flags, the
// event pipe, and the poll-descriptor list with its cached array. Each function is one critical
// section of libusb-andro/libusb/io.c, core.c or hotplug.c; the class runs them in place.

module EventData {
  import opened Wrappers

  type Fd = nat

  datatype Data = Data(
    pollfdsModified: bool, userInterrupt: bool, hotplugDeregistered: bool,   // event_flags
    deviceClose: nat, hotplugMsgs: nat, completed: nat,
    pipe: nat,                        // unread bytes on the event pipe
    ipollfds: seq<Fd>, cnt: nat,      // the list and pollfds_cnt
    pollfds: Option<seq<Fd>>)         // the array, None while it is not allocated

  // usbi_pending_events
  predicate Pending(d: Data) {
    d.pollfdsModified || d.userInterrupt || d.hotplugDeregistered
    || d.deviceClose > 0 || d.hotplugMsgs > 0 || d.completed > 0
  }

  // "only signal an event if there are no prior pending events": d is before the change, e after
  function SignalIfFirst(d: Data, e: Data): Data {
    if Pending(d) then e else e.(pipe := e.pipe + 1)
  }

  // "clear the event pipe if there are no further pending events"
  function ClearIfLast(d: Data): Data
    requires !Pending(d) ==> d.pipe > 0
  {
    if Pending(d) then d else d.(pipe := d.pipe - 1)
  }

  function Without(s: seq<Fd>, fd: Fd): (r: seq<Fd>)
    ensures fd !in s ==> r == s
    ensures fd in s ==> |r| == |s| - 1
    ensures s != [] && s[0] != fd ==> r != [] && r[0] == s[0]
  {
    if s == [] then [] else if s[0] == fd then s[1..] else [s[0]] + Without(s[1..], fd)
  }

  function AddPollfd(d: Data, fd: Fd): Data {
    SignalIfFirst(d, d.(ipollfds := d.ipollfds + [fd], cnt := d.cnt + 1, pollfdsModified := true))
  }

  function RemovePollfd(d: Data, fd: Fd): Data
    requires d.cnt == |d.ipollfds|
  {
    if fd !in d.ipollfds then d
    else SignalIfFirst(d, d.(ipollfds := Without(d.ipollfds, fd), cnt := d.cnt - 1, pollfdsModified := true))
  }

  function Interrupt(d: Data): Data { SignalIfFirst(d, d.(userInterrupt := true)) }

  function HotplugNotify(d: Data): Data { SignalIfFirst(d, d.(hotplugMsgs := d.hotplugMsgs + 1)) }

  function HotplugDeregister(d: Data): Data { SignalIfFirst(d, d.(hotplugDeregistered := true)) }

  // usbi_signal_transfer_completion; the Linux backend never calls it
  function SignalCompletion(d: Data): Data { SignalIfFirst(d, d.(completed := d.completed + 1)) }

  function CloseBegin(d: Data): Data { SignalIfFirst(d, d.(deviceClose := d.deviceClose + 1)) }

  function CloseEnd(d: Data): Data
    requires d.deviceClose > 0 && d.pipe > 0
  {
    ClearIfLast(d.(deviceClose := d.deviceClose - 1))
  }

  // The poll-array part of handle_events. Without memory the flag stays set.
  function Rebuild(d: Data, allocOk: bool): Data
    requires d.pollfdsModified ==> d.pipe > 0
  {
    if !d.pollfdsModified then d
    else if !allocOk then d.(pollfds := None)
    else ClearIfLast(d.(pollfds := Some(d.ipollfds), pollfdsModified := false))
  }

  // The pipe part of handle_events: acknowledge everything but closing and pollfd changes.
  function Acknowledge(d: Data): Data {
    d.(userInterrupt := false, hotplugDeregistered := false, hotplugMsgs := 0)
  }

  function PopCompleted(d: Data): Data
    requires d.completed > 0
  {
    d.(completed := d.completed - 1)
  }

  // ---------------------------------------------------------------- what every section keeps

  // With the lock free, an event that is pending can be seen on the pipe.
  ghost predicate PipeShows(d: Data) { Pending(d) ==> d.pipe > 0 }

  // Without completed transfers the pipe holds one byte if an event is pending and none otherwise.
  ghost predicate PipeExact(d: Data) { d.completed == 0 && d.pipe == if Pending(d) then 1 else 0 }

  // The array is the list whenever nothing says otherwise, and entry 0 is the event pipe.
  ghost predicate CacheAgrees(d: Data, pipeFd: Fd) {
    && d.cnt == |d.ipollfds|
    && d.ipollfds != [] && d.ipollfds[0] == pipeFd
    && (!d.pollfdsModified ==> d.pollfds == Some(d.ipollfds))
    && (d.pollfds.Some? ==> d.pollfds.value != [] && d.pollfds.value[0] == pipeFd)
  }

  lemma SignalKeeps(d: Data, e: Data)
    requires PipeShows(d) && e.pipe == d.pipe && Pending(e)
    ensures PipeShows(SignalIfFirst(d, e))
    ensures PipeExact(d) && e.completed == 0 ==> PipeExact(SignalIfFirst(d, e))
  {
  }

  lemma ClearKeeps(d: Data)
    requires d.pipe > 0
    ensures PipeShows(ClearIfLast(d))
    ensures d.pipe == 1 && d.completed == 0 ==> PipeExact(ClearIfLast(d))
  {
  }

  // The sections that are not in place here: each sets its event, and the pipe gets a byte exactly if
  // nothing was pending.
  lemma SectionsSet(d: Data)
    ensures HotplugNotify(d) == d.(hotplugMsgs := d.hotplugMsgs + 1, pipe := d.pipe + if Pending(d) then 0 else 1)
    ensures HotplugDeregister(d) == d.(hotplugDeregistered := true, pipe := d.pipe + if Pending(d) then 0 else 1)
    ensures SignalCompletion(d) == d.(completed := d.completed + 1, pipe := d.pipe + if Pending(d) then 0 else 1)
  {
  }

  // On a backend that queues completed transfers the exact form fails: a transfer that completes
  // while the handler has just taken the only other one off writes a second byte, and one read is
  // all the handler does at the end.
  lemma CompletionsLeaveAByte(d: Data)
    requires d.pipe == 0 && !Pending(d)
    ensures var d1 := SignalCompletion(d);          // a backend completes a transfer
            var d2 := PopCompleted(d1);             // the handler takes it off and drops the lock
            var d3 := SignalCompletion(d2);         // a second transfer completes meanwhile
            var d4 := PopCompleted(d3);             // and is taken off
            var d5 := ClearIfLast(d4);              // the handler is done
            PipeShows(d5) && !Pending(d5) && d5.pipe == 1 && !PipeExact(d5)
  {
  }

  // ---------------------------------------------------------------- the sections in place

  class Context {
    const pipeFd: Fd
    var pollfdsModified: bool
    var userInterrupt: bool
    var hotplugDeregistered: bool
    var deviceClose: nat
    var hotplugMsgs: nat
    var completed: nat
    var pipe: nat
    var ipollfds: seq<Fd>
    var cnt: nat
    var pollfds: array?<Fd>
    var removed: seq<Fd>      // removed_ipollfds: taken off the list, not yet freed

    function D(): Data
      reads this, pollfds
    {
      Data(pollfdsModified, userInterrupt, hotplugDeregistered, deviceClose, hotplugMsgs, completed,
           pipe, ipollfds, cnt, if pollfds == null then None else Some(pollfds[..]))
    }

    ghost predicate Valid()
      reads this, pollfds
    {
      CacheAgrees(D(), pipeFd) && PipeShows(D())
    }

    // usbi_io_init: the pipe is the first descriptor
    constructor (pipeFd: Fd)
      ensures Valid() && PipeExact(D())
      ensures this.pipeFd == pipeFd && ipollfds == [pipeFd] && pollfdsModified && removed == []
    {
      this.pipeFd := pipeFd;
      pollfdsModified, userInterrupt, hotplugDeregistered := false, false, false;
      deviceClose, hotplugMsgs, completed, pipe := 0, 0, 0, 0;
      ipollfds, cnt, pollfds, removed := [], 0, null, [];
      new;
      ipollfds, cnt := ipollfds + [pipeFd], cnt + 1;
      FdNotification();
    }

    function PendingEvents(): bool
      reads this, pollfds
      ensures PendingEvents() == Pending(D())
      ensures PendingEvents() <==>
                pollfdsModified || userInterrupt || hotplugDeregistered || deviceClose > 0 || hotplugMsgs > 0 || completed > 0
    {
      pollfdsModified || userInterrupt || hotplugDeregistered || deviceClose > 0 || hotplugMsgs > 0 || completed > 0
    }

    // usbi_fd_notification
    method FdNotification()
      modifies this`pollfdsModified, this`pipe
      ensures D() == SignalIfFirst(old(D()), old(D()).(pollfdsModified := true))
      ensures pollfdsModified && pipe == old(pipe) + if old(PendingEvents()) then 0 else 1
    {
      var pending := PendingEvents();
      pollfdsModified := true;
      if !pending { pipe := pipe + 1; }
    }

    // usbi_add_pollfd
    method AddFd(fd: Fd)
      requires Valid()
      modifies this`ipollfds, this`cnt, this`pollfdsModified, this`pipe
      ensures Valid() && D() == AddPollfd(old(D()), fd)
      ensures old(PipeExact(D())) ==> PipeExact(D())
      ensures ipollfds == old(ipollfds) + [fd] && cnt == old(cnt) + 1 && pollfdsModified
      ensures pipe == old(pipe) + if old(PendingEvents()) then 0 else 1
    {
      ipollfds, cnt := ipollfds + [fd], cnt + 1;
      FdNotification();
    }

    // usbi_remove_pollfd: the first entry with this descriptor
    method RemoveFd(fd: Fd)
      requires Valid() && fd != pipeFd
      modifies this`ipollfds, this`cnt, this`pollfdsModified, this`pipe, this`removed
      ensures Valid() && D() == RemovePollfd(old(D()), fd)
      ensures removed == old(removed) + if fd in old(ipollfds) then [fd] else []
      ensures old(PipeExact(D())) ==> PipeExact(D())
      ensures fd !in old(ipollfds) ==> ipollfds == old(ipollfds) && pollfdsModified == old(pollfdsModified) && pipe == old(pipe)
      ensures fd in old(ipollfds) ==>
                && (exists i :: 0 <= i < |old(ipollfds)| && old(ipollfds)[i] == fd && fd !in old(ipollfds)[..i]
                                && ipollfds == old(ipollfds)[..i] + old(ipollfds)[i + 1..])
                && pollfdsModified && pipe == old(pipe) + if old(PendingEvents()) then 0 else 1
    {
      var i := 0;
      while i < |ipollfds| && ipollfds[i] != fd
        invariant 0 <= i <= |ipollfds| && fd !in ipollfds[..i]
      {
        i := i + 1;
      }
      if i == |ipollfds| { return; }
      WithoutAt(ipollfds, fd, i);
      ipollfds, removed, cnt := ipollfds[..i] + ipollfds[i + 1..], removed + [fd], cnt - 1;
      FdNotification();
    }

    // libusb_interrupt_event_handler
    method InterruptEventHandler()
      requires Valid()
      modifies this`userInterrupt, this`pipe
      ensures Valid() && D() == Interrupt(old(D()))
      ensures old(PipeExact(D())) ==> PipeExact(D())
      ensures userInterrupt && pipe == old(pipe) + if old(PendingEvents()) then 0 else 1
    {
      var pending := PendingEvents();
      userInterrupt := true;
      if !pending { pipe := pipe + 1; }
    }

    // the first critical section of libusb_close
    method BeginClose()
      requires Valid()
      modifies this`deviceClose, this`pipe
      ensures Valid() && D() == CloseBegin(old(D()))
      ensures old(PipeExact(D())) ==> PipeExact(D())
      ensures deviceClose == old(deviceClose) + 1 && pipe == old(pipe) + if old(PendingEvents()) then 0 else 1
    {
      var pending := PendingEvents();
      deviceClose := deviceClose + 1;
      if !pending { pipe := pipe + 1; }
    }

    // the last critical section of libusb_close
    method EndClose()
      requires Valid() && deviceClose > 0
      modifies this`deviceClose, this`pipe
      ensures Valid() && D() == CloseEnd(old(D()))
      ensures old(PipeExact(D())) ==> PipeExact(D())
      ensures deviceClose == old(deviceClose) - 1 && pipe == old(pipe) - if PendingEvents() then 0 else 1
    {
      deviceClose := deviceClose - 1;
      if !PendingEvents() { pipe := pipe - 1; }
    }

    // the poll-array section of handle_events, which first frees what has been removed
    method RebuildPollfds(allocOk: bool) returns (ok: bool)
      requires Valid()
      modifies this`pollfds, this`pollfdsModified, this`pipe, this`removed
      ensures Valid() && D() == Rebuild(old(D()), allocOk) && removed == []
      ensures ok <==> !old(pollfdsModified) || allocOk
      ensures ok ==> pollfds != null && pollfds[..] == ipollfds && pollfds.Length == cnt && pollfds[0] == pipeFd
      ensures old(PipeExact(D())) ==> PipeExact(D())
      ensures ok ==> !pollfdsModified && pipe == old(pipe) - if old(pollfdsModified) && !PendingEvents() then 1 else 0
      ensures !ok ==> pollfdsModified && pipe == old(pipe)
    {
      removed := [];
      if !pollfdsModified { return true; }
      pollfds := null;
      if !allocOk { return false; }
      var fds := new Fd[cnt];
      var i := 0;
      while i < |ipollfds|
        invariant 0 <= i <= |ipollfds| == fds.Length
        invariant fds[..i] == ipollfds[..i]
        modifies fds
      {
        fds[i] := ipollfds[i];
        i := i + 1;
      }
      assert fds[..] == ipollfds;
      pollfds := fds;
      pollfdsModified := false;
      if !PendingEvents() { pipe := pipe - 1; }
      ok := true;
    }

    // the pipe section of handle_events, up to where it gives the lock back: with a completed transfer
    // in hand, or at the end
    method DispatchPipe() returns (msgs: nat, deregistered: bool, popped: bool)
      requires Valid() && pipe > 0
      modifies this`userInterrupt, this`hotplugDeregistered, this`hotplugMsgs, this`completed, this`pipe
      ensures Valid() && D() == PopOrClear(Acknowledge(old(D())))
      ensures msgs == old(hotplugMsgs) && deregistered == old(hotplugDeregistered)
      ensures popped <==> old(completed) > 0
      ensures !popped ==> pipe == old(pipe) - if deviceClose == 0 && !pollfdsModified then 1 else 0
      ensures popped ==> pipe == old(pipe) && completed == old(completed) - 1
      ensures old(PipeExact(D())) ==> PipeExact(D())
      ensures !userInterrupt && !hotplugDeregistered && hotplugMsgs == 0
    {
      if userInterrupt { userInterrupt := false; }
      deregistered := hotplugDeregistered;
      if hotplugDeregistered { hotplugDeregistered := false; }
      msgs, hotplugMsgs := hotplugMsgs, 0;
      popped := AfterCompletion(0);
    }

    // the same section with the lock taken again, once the backend has completed the transfer with
    // result ret; an error ends the loop
    method AfterCompletion(ret: int) returns (popped: bool)
      requires CacheAgrees(D(), pipeFd) && pipe > 0
      modifies this`completed, this`pipe
      ensures Valid()
      ensures popped <==> ret == 0 && old(completed) > 0
      ensures D() == if ret == 0 then PopOrClear(old(D())) else ClearIfLast(old(D()))
      ensures popped ==> completed == old(completed) - 1 && pipe == old(pipe)
      ensures !popped ==> completed == old(completed) && pipe == old(pipe) - if PendingEvents() then 0 else 1
    {
      popped := ret == 0 && completed > 0;
      if popped {
        completed := completed - 1;
      } else if !PendingEvents() {
        pipe := pipe - 1;
      }
    }
  }

  // The next completed transfer, or the end of the section.
  function PopOrClear(d: Data): Data
    requires d.pipe > 0
  {
    if d.completed > 0 then PopCompleted(d) else ClearIfLast(d)
  }

  lemma {:induction false} WithoutAt(s: seq<Fd>, fd: Fd, i: nat)
    requires i < |s| && s[i] == fd && fd !in s[..i]
    ensures fd in s && Without(s, fd) == s[..i] + s[i + 1..]
  {
    if i > 0 {
      assert s[0] in s[..i];
      forall x | x in s[1..][..i - 1] ensures x in s[..i] {
        var k :| 0 <= k < i - 1 && s[1..][k] == x;
        assert s[..i][k + 1] == x;
      }
      WithoutAt(s[1..], fd, i - 1);
      assert s[..i] == [s[0]] + s[1..][..i - 1] && s[1..][i..] == s[i + 1..];
    }
  }
}
