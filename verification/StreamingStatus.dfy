// What async_status says from outside: when a stream is on, and when rtlsdr_read_async returns -2 for
// good because CANCELING has been left behind.

module StreamingStatus {
  import opened Wrappers
  import opened Streaming
  import opened StreamingSafety
  import opened StreamingRuns

  // ---------------------------------------------------------------- stuck

  // No stream is on, and none can begin.
  predicate Stuck(s: State) { s.pc.Idle? && s.dev.status.Canceling? }

  // What leaves CANCELING behind: a stream writes it back, or, when none is on, a cancel that had read
  // RUNNING writes it, or a callback of a leaked transfer gives the device up.
  predicate Sticking(s: State, e: Step) {
    match e
    case Finish => s.pc.Finishing? && s.next.Canceling?
    case CancelWrite => s.pc.Idle?
    case Act => s.pc.Idle? && Fatal(s, e)
    case _ => false
  }

  lemma IdleOnlyBegins(s: State, e: Step, s': State)
    requires StartStep(s, e, s')
    ensures s.pc.Idle? ==> e.Begin? && s.dev.status.Inactive?
    ensures !s'.pc.Idle? && !Sticking(s, e)
    ensures s'.dev.status == s.dev.status || s'.dev.status.Running? || s'.dev.status.Canceling?
  {
  }

  lemma LoopIsOn(s: State, e: Step, s': State)
    requires LoopStep(s, e, s')
    ensures !s.pc.Idle? && !s'.pc.Idle? && !Sticking(s, e) && !e.Begin?
    ensures s'.dev.status == s.dev.status || s'.dev.status.Canceling?
  {
    hide AlreadyCancelled;
  }

  lemma EndIsOn(s: State, e: Step, s': State)
    requires EndStep(s, e, s')
    ensures !s.pc.Idle? && !e.Begin?
    ensures s'.pc.Idle? <==> e.Finish?
    ensures if e.Finish? then s.pc.Finishing? && s'.dev.status == s.next else s'.dev.status == s.dev.status && !Sticking(s, e)
  {
    hide AlreadyCancelled, Frees;
  }

  lemma CallbackStatus(s: State, e: Step, s': State)
    requires CallbackStep(s, e, s')
    ensures s'.pc == s.pc && !e.Begin?
    ensures s'.dev.status == s.dev.status || s'.dev.status.Canceling?
    ensures !s.dev.status.Running? ==>
              (s'.dev.status == if e.Act? && Fatal(s, e) then Canceling else s.dev.status)
  {
    hide Stored;
    if e.StoreDown? || e.StoreUp? || e.Uncount? { StoresKeepStatus(s, e, s'); }
  }

  lemma StoresKeepStatus(s: State, e: Step, s': State)
    requires CallbackStep(s, e, s') && (e.StoreDown? || e.StoreUp? || e.Uncount?)
    ensures s'.dev.status == s.dev.status && s'.pc == s.pc
  {
  }

  lemma OtherStatus(s: State, e: Step, s': State)
    requires OtherStep(s, e, s')
    ensures s'.pc == s.pc && !e.Begin? && !e.Act? && !e.Finish?
    ensures s'.dev.status == if e.CancelWrite? then Canceling else s.dev.status
  {
  }

  // A stream that is on never says INACTIVE, and RUNNING is only said while one is on.
  predicate StatusFits(s: State) { (s.dev.status.Inactive? ==> s.pc.Idle?) && (s.pc.Idle? ==> !s.dev.status.Running?) }

  lemma NextStatusFits(s: State, e: Step, s': State)
    requires StatusFits(s) && !s.next.Running? && Next(s, e, s')
    ensures StatusFits(s')
    ensures Stuck(s') <==> Stuck(s) || Sticking(s, e)
    ensures Stuck(s) ==> !e.Begin?
  {
    hide StartStep, LoopStep, EndStep, CallbackStep, OtherStep, Fatal;
    if StartStep(s, e, s') { StartStatus(s, e, s'); IdleOnlyBegins(s, e, s'); }
    else if LoopStep(s, e, s') { LoopIsOn(s, e, s'); }
    else if EndStep(s, e, s') { EndIsOn(s, e, s'); }
    else if CallbackStep(s, e, s') { CallbackStatus(s, e, s'); CallbackIsNotFinish(s, e, s'); }
    else { OtherStatus(s, e, s'); }
  }

  lemma StartStatus(s: State, e: Step, s': State)
    requires StartStep(s, e, s')
    ensures s'.dev.status.Inactive? ==> s.dev.status.Inactive? && !s.pc.Idle?
  {
  }

  lemma CallbackIsNotFinish(s: State, e: Step, s': State)
    requires CallbackStep(s, e, s')
    ensures !e.Finish? && !e.CancelWrite?
  {
  }

  lemma InitFits(s: State)
    requires Init(s)
    ensures StatusFits(s) && !Stuck(s)
  {
  }

  lemma {:induction false} RunFits(ss: seq<State>, es: seq<Step>, n: nat)
    requires Run(ss, es) && n < |ss|
    ensures StatusFits(ss[n])
  {
    hide Next, Init, StatusFits, Stuck, Sticking;
    if n == 0 {
      InitFits(ss[0]);
    } else {
      RunFits(ss, es, n - 1);
      NextStatusNeverRunning(ss, es, n - 1);
      NextStatusFits(ss[n - 1], es[n - 1], ss[n]);
    }
  }

  // ---------------------------------------------------------------- exactly when

  // In every run, whoever handles events: the device is stuck if and only if one of those steps has
  // been taken.
  lemma {:induction false} StuckIff(ss: seq<State>, es: seq<Step>, n: nat)
    requires Run(ss, es) && n < |ss|
    ensures Stuck(ss[n]) <==> exists k :: 0 <= k < n && Sticking(ss[k], es[k])
  {
    hide Next, Init, StatusFits, Stuck, Sticking;
    if n == 0 {
      InitFits(ss[0]);
    } else {
      StuckIff(ss, es, n - 1);
      RunFits(ss, es, n - 1);
      NextStatusNeverRunning(ss, es, n - 1);
      NextStatusFits(ss[n - 1], es[n - 1], ss[n]);
    }
  }

  // It stays so: no stream ever begins again.
  lemma {:induction false} StuckForGood(ss: seq<State>, es: seq<Step>, m: nat, n: nat)
    requires Run(ss, es) && m <= n < |ss| && Stuck(ss[m])
    ensures Stuck(ss[n]) && Begin !in es[m..n]
  {
    hide Next, Init, Stuck, StatusFits, Sticking;
    if m < n {
      assert es[m..n] == es[m..n - 1] + [es[n - 1]];
      StuckForGood(ss, es, m, n - 1);
      RunFits(ss, es, n - 1);
      NextStatusNeverRunning(ss, es, n - 1);
      NextStatusFits(ss[n - 1], es[n - 1], ss[n]);
    }
  }

  // A stream is on if and only if the status is not INACTIVE and the device is not stuck. So when
  // rtlsdr_close stops waiting for INACTIVE and frees the device all the same, rtlsdr_read_async is
  // still using it, unless it is stuck.
  lemma OnIffStatusSays(ss: seq<State>, es: seq<Step>, n: nat)
    requires Run(ss, es) && n < |ss|
    ensures !ss[n].pc.Idle? <==> !ss[n].dev.status.Inactive? && !Stuck(ss[n])
  {
    RunFits(ss, es, n);
  }

  // ---------------------------------------------------------------- a device that is lost

  // Past the check in the event loop, a stream on a lost device is no longer RUNNING.
  predicate Noticed(s: State) { s.pc.Branching? && s.dev.lost ==> !s.dev.status.Running? }

  lemma LoopNotices(s: State, e: Step, s': State)
    requires LoopStep(s, e, s')
    ensures Noticed(s')
  {
    hide AlreadyCancelled;
  }

  lemma CallbackNotices(s: State, e: Step, s': State)
    requires Noticed(s) && CallbackStep(s, e, s')
    ensures Noticed(s')
  {
  }

  lemma NextNotices(s: State, e: Step, s': State)
    requires Noticed(s) && Next(s, e, s')
    ensures Noticed(s')
  {
    hide StartStep, LoopStep, EndStep, CallbackStep, OtherStep;
    if StartStep(s, e, s') { StartBranchesNot(s, e, s'); }
    else if LoopStep(s, e, s') { LoopNotices(s, e, s'); }
    else if EndStep(s, e, s') { EndBranchesNot(s, e, s'); }
    else if CallbackStep(s, e, s') { CallbackNotices(s, e, s'); }
    else { OtherStatus(s, e, s'); OtherLoses(s, e, s'); }
  }

  lemma StartBranchesNot(s: State, e: Step, s': State)
    requires StartStep(s, e, s')
    ensures !s'.pc.Branching?
  {
  }

  lemma EndBranchesNot(s: State, e: Step, s': State)
    requires EndStep(s, e, s')
    ensures !s'.pc.Branching?
  {
    hide AlreadyCancelled, Frees;
  }

  lemma OtherLoses(s: State, e: Step, s': State)
    requires OtherStep(s, e, s')
    ensures s'.dev.lost == s.dev.lost
  {
  }

  // In every run: where the event loop decides whether to cancel, a lost device is never still RUNNING,
  // whoever has lost it and when.
  lemma {:induction false} LostIsNoticed(ss: seq<State>, es: seq<Step>, n: nat)
    requires Run(ss, es) && n < |ss|
    ensures ss[n].pc.Branching? && ss[n].dev.lost ==> !ss[n].dev.status.Running?
  {
    if n > 0 {
      LostIsNoticed(ss, es, n - 1);
      hide Next;
      NextNotices(ss[n - 1], es[n - 1], ss[n]);
    }
  }

  // ---------------------------------------------------------------- what a stream writes back

  // One of the stream's own cancels has been accepted.
  predicate Accepts(s: State, e: Step) { s.pc.CancelEvents? && s.pc.ok && e.Return? }

  // A stream begins, begins a round of cancels, or has a count of zero before it frees.
  predicate Forgets(s: State, e: Step) {
    || (s.pc.Idle? && e.Begin?) || (s.pc.Branching? && e.Branch? && s.dev.status.Canceling?)
    || (s.pc.Settling? && e.Settle? && s.dev.outstanding == 0)
  }

  function NextAfter(s: State, e: Step): Status {
    if Accepts(s, e) then Canceling else if Forgets(s, e) then Inactive else s.next
  }

  lemma StartNext(s: State, e: Step, s': State)
    requires StartStep(s, e, s')
    ensures s'.next == NextAfter(s, e)
  {
  }

  lemma LoopNext(s: State, e: Step, s': State)
    requires LoopStep(s, e, s')
    ensures s'.next == NextAfter(s, e)
  {
    hide AlreadyCancelled;
  }

  lemma EndNext(s: State, e: Step, s': State)
    requires EndStep(s, e, s')
    ensures s'.next == NextAfter(s, e)
  {
    hide AlreadyCancelled, Frees;
  }

  lemma OthersNext(s: State, e: Step, s': State)
    requires CallbackStep(s, e, s') || OtherStep(s, e, s')
    ensures s'.next == s.next && !Accepts(s, e) && !Forgets(s, e)
  {
  }

  lemma NextIsAfter(s: State, e: Step, s': State)
    requires Next(s, e, s')
    ensures s'.next == NextAfter(s, e)
  {
    hide StartStep, LoopStep, EndStep, CallbackStep, OtherStep, Accepts, Forgets;
    if StartStep(s, e, s') { StartNext(s, e, s'); }
    else if LoopStep(s, e, s') { LoopNext(s, e, s'); }
    else if EndStep(s, e, s') { EndNext(s, e, s'); }
    else { OthersNext(s, e, s'); }
  }

  // In every run: a stream that ends writes CANCELING back if and only if a cancel was accepted in its
  // last round of cancels and the count was not zero when it looked.
  lemma {:induction false} NextCancelingIff(ss: seq<State>, es: seq<Step>, n: nat)
    requires Run(ss, es) && n < |ss|
    ensures ss[n].next.Canceling? <==>
            exists j :: 0 <= j < n && Accepts(ss[j], es[j]) && forall i :: j < i < n ==> !Forgets(ss[i], es[i])
  {
    hide Next, Accepts, Forgets;
    if n > 0 {
      NextCancelingIff(ss, es, n - 1);
      NextIsAfter(ss[n - 1], es[n - 1], ss[n]);
      NextStatusNeverRunning(ss, es, n - 1);
      AcceptsOrForgets(ss[n - 1], es[n - 1]);
    }
  }

  lemma AcceptsOrForgets(s: State, e: Step)
    ensures !(Accepts(s, e) && Forgets(s, e))
  {
  }

  // ---------------------------------------------------------------- for the caller

  // With callbacks on the streaming thread and streams that start with nothing in flight, and with no
  // cancel written after a stream has ended: the device is stuck only once a stream has ended with
  // something linked, and it is linked still unless a close has taken it off.
  lemma {:induction false} StuckOnlyByLeak(ss: seq<State>, es: seq<Step>, n: nat)
    requires ExpectedRun(ss, es) && n < |ss| && Stuck(ss[n])
    requires forall k :: 0 <= k < n && es[k].CancelWrite? ==> !ss[k].pc.Idle?
    ensures exists k :: 0 <= k < n && es[k].Finish? && ss[k].lib.linked != {} && ss[k].next.Canceling?
    ensures ss[n].lib.linked != {} || ss[n].closed
  {
    hide Next, Init;
    StuckIff(ss, es, n);
    var k :| 0 <= k < n && Sticking(ss[k], es[k]);
    assert Next(ss[k], es[k], ss[k + 1]);
    ExpectedIsQuiet(ss, es, k);
    RunOverSaysSo(ss, es, k);
    assert es[k].Finish?;
    FinishLeaves(ss[k], es[k], ss[k + 1]);
    IdleKeepsLinked(ss, es, k + 1, n);
  }

  lemma FinishLeaves(s: State, e: Step, s': State)
    requires Next(s, e, s') && e.Finish?
    ensures s'.lib == s.lib && s'.dev.status == s.next && s'.pc.Idle? && s.pc.Finishing?
  {
    hide AlreadyCancelled, Frees;
  }

  lemma {:induction false} IdleKeepsLinked(ss: seq<State>, es: seq<Step>, m: nat, n: nat)
    requires ExpectedRun(ss, es) && m <= n < |ss| && Stuck(ss[m]) && ss[m].lib.linked != {}
    ensures ss[n].lib.linked != {} || ss[n].closed
  {
    hide Next, Init, Stuck;
    if m < n {
      IdleKeepsLinked(ss, es, m, n - 1);
      StuckForGood(ss, es, m, n - 1);
      ExpectedIsQuiet(ss, es, n - 1);
      assert Expected(ss[n - 1], es[n - 1]);
      StuckKeepsLinked(ss[n - 1], es[n - 1], ss[n]);
    }
  }

  lemma StuckKeepsLinked(s: State, e: Step, s': State)
    requires Stuck(s) && (!InEvents(s.pc) ==> s.cb.NoCallback?) && Next(s, e, s') && (e.Land? ==> e.who.Streamer?)
    ensures (s'.lib.linked == s.lib.linked && s'.closed == s.closed) || s'.closed
  {
    hide StartStep, LoopStep, EndStep;
    if StartStep(s, e, s') { IdleOnlyBegins(s, e, s'); }
    else if LoopStep(s, e, s') { LoopIsOn(s, e, s'); }
    else if EndStep(s, e, s') { EndIsOn(s, e, s'); }
  }

  // ---------------------------------------------------------------- three ways to get stuck

  // The stream's cancel is accepted, but event handling fails from then on, also in the drain.
  function LeakStuck(lost: bool): seq<Step> {
    [Return(Fine), CancelDone] + (if lost then [] else [Top])
    + [Return(Broken), Drain, Cancel(false), CancelDone, DrainReturn(Broken), Settle, Decide, Finish]
  }

  function InLeak(s: State, pc: Pc): State { s.(next := Canceling, pc := pc) }

  lemma LeaksCanceling(s: State, x: Id)
    requires s.pc == CancelEvents(0, true) && s.cb.NoCallback? && s.dev.xfers == Some([x]) && s.dev.outstanding == 1
    requires s.dev.status.Canceling? && x !in s.lib.ends
    ensures Leads(s, LeakStuck(s.dev.lost), s.(dev := s.dev.(xfers := None), next := Canceling, pc := Idle))
  {
    hide Leads;
    var top := InLeak(s, DrainTop(100));
    var head := [Return(Fine), CancelDone] + (if s.dev.lost then [] else [Top]) + [Return(Broken)];
    LoopGivesUp(s, x);
    DrainsInVain(top, x);
    assert Leaking[1..6] == [Drain, Cancel(false), CancelDone, DrainReturn(Broken), Settle];
    Compose(s, head, top, Leaking[1..6], InLeak(s, Deciding));
    WritesBack(InLeak(s, Deciding));
    Compose(s, head + Leaking[1..6], InLeak(s, Deciding), [Decide, Finish], s.(dev := s.dev.(xfers := None), next := Canceling, pc := Idle));
    assert head + Leaking[1..6] + [Decide, Finish] == LeakStuck(s.dev.lost);
  }

  lemma LoopGivesUp(s: State, x: Id)
    requires s.pc == CancelEvents(0, true) && s.cb.NoCallback? && s.dev.xfers == Some([x]) && s.dev.status.Canceling?
    ensures Leads(s, [Return(Fine), CancelDone] + (if s.dev.lost then [] else [Top]) + [Return(Broken)], InLeak(s, DrainTop(100)))
  {
    hide Leads, StartStep, EndStep, CallbackStep, OtherStep;
    var es := [Return(Fine), CancelDone] + (if s.dev.lost then [] else [Top]) + [Return(Broken)];
    Sets(s, es);
    Extend(s, es, 0, s, Loop, InLeak(s, CancelLoop(1)));
    if s.dev.lost {
      Extend(s, es, 1, InLeak(s, CancelLoop(1)), Loop, InLeak(s, LastEvents));
      Extend(s, es, 2, InLeak(s, LastEvents), Loop, InLeak(s, DrainTop(100)));
      assert es[..3] == es;
    } else {
      Extend(s, es, 1, InLeak(s, CancelLoop(1)), Loop, InLeak(s, LoopTop));
      Extend(s, es, 2, InLeak(s, LoopTop), Loop, InLeak(s, Handling));
      Extend(s, es, 3, InLeak(s, Handling), Loop, InLeak(s, DrainTop(100)));
      assert es[..4] == es;
    }
  }

  lemma WritesBack(s: State)
    requires s.pc.Deciding? && s.dev.outstanding != 0
    ensures Leads(s, [Decide, Finish], s.(dev := s.dev.(xfers := None, status := s.next), pc := Idle))
  {
    hide Leads, StartStep, LoopStep, CallbackStep, OtherStep;
    var es := [Decide, Finish];
    var t := s.(dev := s.dev.(xfers := None), pc := Finishing);
    Sets(s, es);
    Extend(s, es, 0, s, TheEnd, t);
    Extend(s, es, 1, t, TheEnd, t.(dev := t.dev.(status := s.next), pc := Idle));
    assert es[..2] == es;
  }

  // From every state in which a stream may start: one that leaks its transfer and writes CANCELING
  // back, with no cancel still on its way.
  lemma LeakCanStick(s: State) returns (x: Id, es: seq<Step>, s': State)
    requires MayStart(s) && s.cb.NoCallback? && s.lib.linked <= s.lib.used
    ensures es == Opening(x) + Submission + ByCancel(true) + LeakStuck(s.dev.lost)
    ensures OneStream(s, es, s') && ByStreamer(es) && Stuck(s')
    ensures x !in s.lib.used && s'.lib.linked == s.lib.linked + {x} && s'.lib.freed == s.lib.freed && s'.cancels == s.cancels
  {
    hide Leads, LeakStuck;
    x := FreshId(s.lib.used + s.lib.ends.Keys);
    var u := UpAndRunning(s, x);
    Opens(s, x);
    CancelsOne(u, x, true);
    var v := InCancel(u, CancelEvents(0, true));
    Compose(s, Opening(x) + Submission, u, ByCancel(true), v);
    LeaksCanceling(v, x);
    s' := v.(dev := v.dev.(xfers := None), next := Canceling, pc := Idle);
    es := Opening(x) + Submission + ByCancel(true) + LeakStuck(s.dev.lost);
    Compose(s, Opening(x) + Submission + ByCancel(true), v, LeakStuck(s.dev.lost), s');
    LeakStuckSteps(s.dev.lost);
    assert es[0] == Begin;
    assert es[1..] == [Reset([x])] + Submission + ByCancel(true) + LeakStuck(s.dev.lost);
  }

  lemma LeakStuckSteps(lost: bool)
    ensures forall e :: e in LeakStuck(lost) ==> !e.Begin? && !e.Land?
  {
  }

  function GivenUp(t: Id): seq<Step> { [Land(Foreign, t, NoDevice), Uncount, StoreDown, Act] }

  // From every state in which no stream is on and a leaked transfer is still linked: another thread's
  // event handling completes it with NO_DEVICE, and its callback gives the device up.
  lemma LateCallbackCanStick(s: State, t: Id) returns (s': State)
    requires s.pc.Idle? && s.cb.NoCallback? && t in s.lib.linked
    ensures Leads(s, GivenUp(t), s') && Stuck(s')
  {
    hide Leads, StartStep, LoopStep, EndStep, OtherStep;
    var es := GivenUp(t);
    var s1 := s.(lib := s.lib.(linked := s.lib.linked - {t}, ends := s.lib.ends[t := NoDevice]), cb := Started(Foreign, t, NoDevice));
    var s2 := s1.(cb := Uncounting(Foreign, t, NoDevice, s.dev.outstanding));
    var s3 := s1.(dev := s.dev.(outstanding := s.dev.outstanding - 1), cb := Counted(Foreign, t, NoDevice));
    s' := s3.(dev := Acted(s3.dev, NoDevice), cb := NoCallback);
    Sets(s, es);
    Extend(s, es, 0, s, InCallback, s1);
    Extend(s, es, 1, s1, InCallback, s2);
    Extend(s, es, 2, s2, InCallback, s3);
    Extend(s, es, 3, s3, InCallback, s');
    assert es[..4] == es;
  }

  const LateEnding := [Return(Broken), Drain, Settle, Decide, Finish]

  lemma EndsLate(s: State, x: Id)
    requires s.pc.Handling? && s.cb.NoCallback? && s.dev.xfers == Some([x]) && s.dev.outstanding == 0
    requires s.next.Inactive?
    ensures Leads(s, LateEnding, s.(dev := s.dev.(status := Inactive, xfers := None),
                                    lib := s.lib.(freed := s.lib.freed + {x}), pc := Idle))
  {
    hide Leads, StartStep, CallbackStep, OtherStep;
    var es := LateEnding;
    var t := s.(dev := s.dev.(xfers := None), lib := s.lib.(freed := s.lib.freed + {x}), pc := Finishing);
    var u := t.(dev := t.dev.(status := Inactive), pc := Idle);
    assert Own(s.dev) == {x};
    Sets(s, es);
    Extend(s, es, 0, s, Loop, Leaving(s, DrainTop(100)));
    Extend(s, es, 1, Leaving(s, DrainTop(100)), TheEnd, Leaving(s, Settling));
    Extend(s, es, 2, Leaving(s, Settling), TheEnd, Leaving(s, Deciding));
    Extend(s, es, 3, Leaving(s, Deciding), TheEnd, t);
    Extend(s, es, 4, t, TheEnd, u);
    assert es[..5] == es;
  }

  lemma ReadsRunning(s: State)
    requires s.dev.status.Running?
    ensures Leads(s, [CancelRead], s.(cancels := s.cancels + 1))
  {
    hide Leads, StartStep, LoopStep, EndStep, CallbackStep;
    Sets(s, [CancelRead]);
    Extend(s, [CancelRead], 0, s, Other, s.(cancels := s.cancels + 1));
    assert [CancelRead][..1] == [CancelRead];
  }

  lemma WritesLate(s: State)
    requires s.cancels > 0
    ensures Leads(s, [CancelWrite], s.(dev := s.dev.(status := Canceling, asyncCancel := true), cancels := s.cancels - 1))
  {
    hide Leads, StartStep, LoopStep, EndStep, CallbackStep;
    Sets(s, [CancelWrite]);
    Extend(s, [CancelWrite], 0, s, Other, s.(dev := s.dev.(status := Canceling, asyncCancel := true), cancels := s.cancels - 1));
    assert [CancelWrite][..1] == [CancelWrite];
  }

  // From every state in which a stream may start: a cancel that reads RUNNING and writes after the
  // end. The stream ends well and frees what it has used, and no other can begin.
  lemma LateCancelCanStick(s: State) returns (es: seq<Step>, s': State)
    requires MayStart(s) && s.cb.NoCallback? && s.lib.linked <= s.lib.used
    ensures OneStream(s, es, s') && ByStreamer(es) && Stuck(s')
    ensures s'.lib.linked == s.lib.linked && s.lib.freed < s'.lib.freed
  {
    hide Leads;
    var x := FreshId(s.lib.used + s.lib.freed);
    var u := UpAndRunning(s, x);
    Opens(s, x);
    ReadsRunning(u);
    var v := u.(cancels := s.cancels + 1);
    var e0, e1 := Opening(x) + Submission, Completing(Streamer, x, Cancelled);
    Compose(s, e0, u, [CancelRead], v);
    Completes(v, Streamer, x, Cancelled);
    var w := v.(dev := v.dev.(outstanding := 0), lib := v.lib.(linked := v.lib.linked - {x}, ends := v.lib.ends[x := Cancelled]));
    Compose(s, e0 + [CancelRead], v, e1, w);
    EndsLate(w, x);
    var idle := w.(dev := w.dev.(status := Inactive, xfers := None), lib := w.lib.(freed := w.lib.freed + {x}), pc := Idle);
    Compose(s, e0 + [CancelRead] + e1, w, LateEnding, idle);
    WritesLate(idle);
    s' := idle.(dev := idle.dev.(status := Canceling, asyncCancel := true), cancels := s.cancels);
    es := e0 + [CancelRead] + e1 + LateEnding + [CancelWrite];
    Compose(s, e0 + [CancelRead] + e1 + LateEnding, idle, [CancelWrite], s');
    assert s'.lib.linked == s.lib.linked;
  }
}
