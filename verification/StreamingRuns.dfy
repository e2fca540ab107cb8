// What one more stream can do, from every state in which rtlsdr_read_async may be called: it can free
// a transfer that is linked exactly if a transfer of an earlier stream is still linked, or another
// thread handles events.

module StreamingRuns {
  import opened Wrappers
  import opened Streaming
  import opened StreamingSafety

  // ---------------------------------------------------------------- putting steps together

  ghost predicate Leads(s: State, es: seq<Step>, s': State) {
    exists ss :: Path(ss, es) && ss[0] == s && ss[|es|] == s'
  }

  datatype Part = Start | Loop | TheEnd | InCallback | Other

  ghost predicate PartStep(part: Part, s: State, e: Step, s': State) {
    match part
    case Start => StartStep(s, e, s')
    case Loop => LoopStep(s, e, s')
    case TheEnd => EndStep(s, e, s')
    case InCallback => CallbackStep(s, e, s')
    case Other => OtherStep(s, e, s')
  }

  lemma Sets(s: State, es: seq<Step>)
    ensures Leads(s, es[..0], s)
  {
    assert Path([s], es[..0]);
  }

  // The k-th step of es.
  lemma Extend(s: State, es: seq<Step>, k: nat, m: State, part: Part, s': State)
    requires k < |es| && Leads(s, es[..k], m) && PartStep(part, m, es[k], s')
    ensures Leads(s, es[..k + 1], s')
  {
    assert Next(m, es[k], s') by { hide StartStep, LoopStep, EndStep, CallbackStep, OtherStep; }
    hide Next, PartStep;
    var ss :| Path(ss, es[..k]) && ss[0] == s && ss[k] == m;
    assert es[..k + 1] == es[..k] + [es[k]];
    assert Path(ss + [s'], es[..k + 1]);
  }

  lemma {:induction false} Compose(s: State, es: seq<Step>, m: State, fs: seq<Step>, s': State)
    requires Leads(s, es, m) && Leads(m, fs, s')
    ensures Leads(s, es + fs, s')
  {
    hide Next;
    var ss :| Path(ss, es) && ss[0] == s && ss[|es|] == m;
    var tt :| Path(tt, fs) && tt[0] == m && tt[|fs|] == s';
    var all := ss + tt[1..];
    forall i | 0 <= i < |es + fs| ensures Next(all[i], (es + fs)[i], all[i + 1]) {
      if i >= |es| { assert Next(tt[i - |es|], fs[i - |es|], tt[i - |es| + 1]); }
    }
    assert Path(all, es + fs);
  }

  ghost predicate ByStreamer(es: seq<Step>) { forall e :: e in es && e.Land? ==> e.who.Streamer? }

  // ---------------------------------------------------------------- pieces of a stream

  // A stream with one transfer x, submitted, in the event loop.
  function UpAndRunning(s: State, x: Id): State {
    s.(dev := Dev(Running, 1, s.dev.lost, s.dev.errors, 1, Some([x]), false),
       lib := s.lib.(linked := s.lib.linked + {x}, used := s.lib.used + {x}),
       pc := Handling, next := Inactive, offset := |s.lib.linked|)
  }

  function Opening(x: Id): seq<Step> { [Begin, Reset([x])] }

  const Submission := [Submit(true), Count, Store, SubmitDone, Top]

  function WithTransfer(s: State, x: Id): State {
    s.(dev := Dev(Running, 0, s.dev.lost, s.dev.errors, 1, Some([x]), false),
       lib := s.lib.(used := s.lib.used + {x}), pc := Submitting(0), next := Inactive, offset := |s.lib.linked|)
  }

  predicate MayStart(s: State) { s.pc.Idle? && s.dev.status.Inactive? && !s.closed }

  lemma Begins(s: State, x: Id)
    requires MayStart(s) && s.cb.NoCallback? && x !in s.lib.used
    ensures Leads(s, Opening(x), WithTransfer(s, x))
  {
    hide Leads, LoopStep, EndStep, CallbackStep, OtherStep;
    var es := Opening(x);
    var s1 := s.(dev := s.dev.(status := Running, asyncCancel := false), next := Inactive, pc := Starting);
    assert (set y | y in [x]) == {x};
    Sets(s, es);
    Extend(s, es, 0, s, Start, s1);
    Extend(s, es, 1, s1, Start, WithTransfer(s, x));
    assert es[..2] == es;
  }

  lemma Submits(s: State, x: Id)
    requires s.pc == Submitting(0) && s.dev.xfers == Some([x]) && x !in s.lib.linked
    requires s.dev.outstanding == 0 && s.dev.status.Running?
    ensures Leads(s, Submission,
                  s.(dev := s.dev.(outstanding := 1), lib := s.lib.(linked := s.lib.linked + {x}), pc := Handling))
  {
    hide Leads, EndStep, CallbackStep, OtherStep;
    var es := Submission;
    var s1 := s.(lib := s.lib.(linked := s.lib.linked + {x}), pc := Counting(0));
    var s3 := s1.(dev := s.dev.(outstanding := 1), pc := Submitting(1));
    Sets(s, es);
    Extend(s, es, 0, s, Start, s1);
    Extend(s, es, 1, s1, Start, s1.(pc := Storing(0, 0)));
    Extend(s, es, 2, s1.(pc := Storing(0, 0)), Start, s3);
    Extend(s, es, 3, s3, Start, s3.(pc := LoopTop));
    Extend(s, es, 4, s3.(pc := LoopTop), Loop, s3.(pc := Handling));
    assert es[..5] == es;
  }

  lemma Opens(s: State, x: Id)
    requires MayStart(s) && s.cb.NoCallback? && s.lib.linked <= s.lib.used && x !in s.lib.used
    ensures Leads(s, Opening(x) + Submission, UpAndRunning(s, x))
  {
    hide Leads;
    Begins(s, x);
    Submits(WithTransfer(s, x), x);
    Compose(s, Opening(x), WithTransfer(s, x), Submission, UpAndRunning(s, x));
  }

  // A transfer completes, and its callback takes it off the count.
  function Completing(who: Who, t: Id, e: End): seq<Step> { [Land(who, t, e), Uncount, StoreDown, Act] }

  lemma Completes(s: State, who: Who, t: Id, e: End)
    requires s.pc.Handling? && s.cb.NoCallback? && s.dev.status.Running? && t in s.lib.linked && (e.Completed? || e.Cancelled?)
    ensures Leads(s, Completing(who, t, e),
                  s.(dev := s.dev.(outstanding := s.dev.outstanding - 1),
                     lib := s.lib.(linked := s.lib.linked - {t}, ends := s.lib.ends[t := e]),
                     cb := if e.Completed? then WillSubmit(who, t) else NoCallback))
  {
    hide Leads, StartStep, LoopStep, EndStep, OtherStep;
    var es := Completing(who, t, e);
    var s1 := s.(lib := s.lib.(linked := s.lib.linked - {t}, ends := s.lib.ends[t := e]), cb := Started(who, t, e));
    var s2 := s1.(cb := Uncounting(who, t, e, s.dev.outstanding));
    var s3 := s1.(dev := s.dev.(outstanding := s.dev.outstanding - 1), cb := Counted(who, t, e));
    var s4 := s3.(cb := if e.Completed? then WillSubmit(who, t) else NoCallback);
    Sets(s, es);
    Extend(s, es, 0, s, InCallback, s1);
    Extend(s, es, 1, s1, InCallback, s2);
    Extend(s, es, 2, s2, InCallback, s3);
    Extend(s, es, 3, s3, InCallback, s4);
    assert es[..4] == es;
  }

  // With the count at zero, a cancel from another thread ends the stream: it cancels its transfer
  // once more, frees it and is about to say that it is over.
  const Ending := [
    CancelRead, CancelWrite, Return(Fine), Check, Branch, Cancel(false), Return(Fine), CancelDone, Return(Fine),
    Drain, Settle, Decide]

  function Ended(s: State, x: Id): State {
    s.(dev := s.dev.(status := Canceling, asyncCancel := true, xfers := None),
       lib := s.lib.(freed := s.lib.freed + {x}), next := Inactive, pc := Finishing)
  }

  function InCancel(s: State, pc: Pc): State {
    s.(dev := s.dev.(status := Canceling, asyncCancel := true), next := Inactive, pc := pc)
  }

  predicate CanEnd(s: State, x: Id) { CanCancel(s, x) && s.dev.outstanding == 0 }

  // A cancel from another thread, and the stream's own of its transfer.
  function ByCancel(ok: bool): seq<Step> { [CancelRead, CancelWrite, Return(Fine), Check, Branch, Cancel(ok)] }

  predicate CanCancel(s: State, x: Id) {
    && s.pc.Handling? && MayReturn(s) && s.dev.status.Running? && s.dev.xfers == Some([x]) && s.next.Inactive?
    && (x in s.lib.ends ==> !s.lib.ends[x].Cancelled?)
  }

  lemma CancelsOne(s: State, x: Id, ok: bool)
    requires CanCancel(s, x)
    ensures Leads(s, ByCancel(ok), InCancel(s, CancelEvents(0, ok)))
  {
    hide Leads, StartStep, EndStep, CallbackStep;
    var es := ByCancel(ok);
    Sets(s, es);
    Extend(s, es, 0, s, Other, s.(cancels := s.cancels + 1));
    Extend(s, es, 1, s.(cancels := s.cancels + 1), Other, InCancel(s, Handling));
    Extend(s, es, 2, InCancel(s, Handling), Loop, InCancel(s, Checking));
    Extend(s, es, 3, InCancel(s, Checking), Loop, InCancel(s, Branching));
    Extend(s, es, 4, InCancel(s, Branching), Loop, InCancel(s, CancelLoop(0)));
    Extend(s, es, 5, InCancel(s, CancelLoop(0)), Loop, InCancel(s, CancelEvents(0, ok)));
    assert es[..6] == es;
  }

  lemma Ends(s: State, x: Id)
    requires CanEnd(s, x)
    ensures Leads(s, Ending, Ended(s, x))
  {
    hide Leads, StartStep, CallbackStep, OtherStep;
    var es := Ending;
    CancelsOne(s, x, false);
    assert es[..6] == ByCancel(false);
    Extend(s, es, 6, InCancel(s, CancelEvents(0, false)), Loop, InCancel(s, CancelLoop(1)));
    Extend(s, es, 7, InCancel(s, CancelLoop(1)), Loop, InCancel(s, LastEvents));
    Extend(s, es, 8, InCancel(s, LastEvents), Loop, InCancel(s, DrainTop(100)));
    Extend(s, es, 9, InCancel(s, DrainTop(100)), TheEnd, InCancel(s, Settling));
    Extend(s, es, 10, InCancel(s, Settling), TheEnd, InCancel(s, Deciding));
    assert Own(InCancel(s, Deciding).dev) == {x};
    Extend(s, es, 11, InCancel(s, Deciding), TheEnd, Ended(s, x));
    assert es[..12] == es;
  }

  // ---------------------------------------------------------------- one more stream

  // One stream from s on, and what it has freed that is linked in the end.
  ghost predicate OneStream(s: State, es: seq<Step>, s': State) {
    Leads(s, es, s') && es != [] && es[0].Begin? && Begin !in es[1..]
  }

  function FreedLinked(s: State, s': State): set<Id> { (s'.lib.freed - s.lib.freed) * s'.lib.linked }

  ghost predicate MayFreeLinked(s: State, foreign: bool) {
    exists es, s' :: OneStream(s, es, s') && (foreign || ByStreamer(es)) && FreedLinked(s, s') != {}
  }

  lemma {:induction false} FreshId(used: set<Id>) returns (x: Id)
    ensures x !in used
    ensures forall y :: y in used ==> y < x
  {
    if used == {} {
      x := 0;
    } else {
      var z :| z in used;
      var x' := FreshId(used - {z});
      x := if z < x' then x' else z + 1;
      assert used == (used - {z}) + {z};
    }
  }

  function LeakRun(x: Id, t: Id): seq<Step> { Opening(x) + Submission + Completing(Streamer, t, Cancelled) + Ending }

  // A transfer t left by an earlier stream lands, is counted against x, and x is freed.
  lemma LeakedIsCounted(s: State, x: Id, t: Id) returns (s': State)
    requires MayStart(s) && s.cb.NoCallback? && s.lib.linked <= s.lib.used
    requires x !in s.lib.used && x !in s.lib.ends && t in s.lib.linked
    ensures OneStream(s, LeakRun(x, t), s') && ByStreamer(LeakRun(x, t))
    ensures x in s'.lib.linked && s'.lib.freed == s.lib.freed + {x} && s'.pc.Finishing?
  {
    hide Leads;
    var u := UpAndRunning(s, x);
    Opens(s, x);
    Completes(u, Streamer, t, Cancelled);
    var v := u.(dev := u.dev.(outstanding := 0), lib := u.lib.(linked := u.lib.linked - {t}, ends := u.lib.ends[t := Cancelled]));
    Compose(s, Opening(x) + Submission, u, Completing(Streamer, t, Cancelled), v);
    Ends(v, x);
    s' := Ended(v, x);
    Compose(s, Opening(x) + Submission + Completing(Streamer, t, Cancelled), v, Ending, s');
  }

  function ForeignRun(x: Id): seq<Step> { Opening(x) + Submission + Completing(Foreign, x, Completed) + Ending + [Resubmit(true)] }

  // Another thread's callback has seen RUNNING; x is freed, and the callback submits it again.
  lemma ForeignSubmitsFreed(s: State, x: Id) returns (s': State)
    requires MayStart(s) && s.cb.NoCallback? && s.lib.linked <= s.lib.used && x !in s.lib.used
    ensures OneStream(s, ForeignRun(x), s')
    ensures x in s'.lib.linked && s'.lib.freed == s.lib.freed + {x} && s'.pc.Finishing?
  {
    hide Leads;
    var u := UpAndRunning(s, x);
    Opens(s, x);
    Completes(u, Foreign, x, Completed);
    var v := u.(dev := u.dev.(outstanding := 0), lib := u.lib.(linked := u.lib.linked - {x}, ends := u.lib.ends[x := Completed]),
                cb := WillSubmit(Foreign, x));
    Compose(s, Opening(x) + Submission, u, Completing(Foreign, x, Completed), v);
    Ends(v, x);
    Compose(s, Opening(x) + Submission + Completing(Foreign, x, Completed), v, Ending, Ended(v, x));
    s' := ResubmitsFreed(Ended(v, x), x);
    Compose(s, Opening(x) + Submission + Completing(Foreign, x, Completed) + Ending, Ended(v, x), [Resubmit(true)], s');
  }

  lemma ResubmitsFreed(s: State, x: Id) returns (s': State)
    requires s.cb == WillSubmit(Foreign, x) && x !in s.lib.linked
    ensures Leads(s, [Resubmit(true)], s') && s' == s.(lib := s.lib.(linked := s.lib.linked + {x}), cb := Submitted(Foreign, x))
  {
    hide Leads, StartStep, LoopStep, EndStep, OtherStep;
    s' := s.(lib := s.lib.(linked := s.lib.linked + {x}), cb := Submitted(Foreign, x));
    Sets(s, [Resubmit(true)]);
    Extend(s, [Resubmit(true)], 0, s, InCallback, s');
    assert [Resubmit(true)][..1] == [Resubmit(true)];
  }

  // ---------------------------------------------------------------- and otherwise it cannot

  // What holds at every step of a stream that starts with nothing linked and whose callbacks all run
  // on the streaming thread.
  ghost predicate Alone(s: State) {
    && Basic(s) && OwnUnfreed(s) && CountsLinked(s) && FreedUnused(s) && NoForeigner(s) && UpToDate(s)
    && (s.pc.Starting? ==> InUse(s) == {})
  }

  lemma AloneIsQuiet(s: State, e: Step, s': State)
    requires Alone(s) && Next(s, e, s')
    ensures ClearStart(s, e) && !Overlap(s) && (FreesNow(s, e) ==> Quiet(s))
  {
    hide Next, InUse, FreedUnused, OwnUnfreed;
    if e.Reset? { ResetIsStarting(s, e, s'); }
    if e.Decide? { DecideIsEnd(s, e, s'); }
  }

  // Nothing lands before the event loop.
  lemma StartingStaysClear(s: State, e: Step, s': State)
    requires Next(s, e, s') && s'.pc.Starting? && !e.Begin?
    ensures s.pc.Starting?
    ensures s.cb.NoCallback? && (e.Land? ==> e.who.Streamer?) ==> s'.cb.NoCallback? && s'.lib.linked == s.lib.linked
  {
    hide StartStep, LoopStep, EndStep, CallbackStep, OtherStep;
    if StartStep(s, e, s') { OnlyBeginStarts(s, e, s'); }
    else if LoopStep(s, e, s') { LoopStartsNothing(s, e, s'); }
    else if EndStep(s, e, s') { EndStartsNothing(s, e, s'); }
    else { OthersStartNothing(s, e, s'); }
  }

  lemma OnlyBeginStarts(s: State, e: Step, s': State)
    requires StartStep(s, e, s') && s'.pc.Starting?
    ensures e.Begin? && s'.lib == s.lib && s'.cb == s.cb
  {
  }

  lemma LoopStartsNothing(s: State, e: Step, s': State)
    requires LoopStep(s, e, s')
    ensures !s'.pc.Starting?
  {
    LoopMoves(s, e, s');
    hide AlreadyCancelled;
  }

  lemma EndStartsNothing(s: State, e: Step, s': State)
    requires EndStep(s, e, s')
    ensures !s'.pc.Starting?
  {
    hide AlreadyCancelled, Frees;
  }

  lemma OthersStartNothing(s: State, e: Step, s': State)
    requires CallbackStep(s, e, s') || OtherStep(s, e, s')
    ensures s'.pc == s.pc
    ensures s.pc.Starting? && s.cb.NoCallback? && (e.Land? ==> e.who.Streamer?) ==>
              s'.cb.NoCallback? && s'.lib.linked == s.lib.linked
  {
  }

  lemma NextAlone(s: State, e: Step, s': State)
    requires Alone(s) && Next(s, e, s') && (e.Land? ==> e.who.Streamer?) && !e.Begin?
    ensures Alone(s')
  {
    AloneIsQuiet(s, e, s');
    NextCounts(s, e, s');
    NextKeeps(s, e, s');
    NextHasNoForeigner(s, e, s');
    NextUpToDate(s, e, s');
    hide Next, CountsLinked, OwnUnfreed, FreedUnused, UpToDate, ClearStart, Overlap, Quiet, FreesNow, UsesOwn;
    if s'.pc.Starting? {
      StartingStaysClear(s, e, s');
      assert s.cb.NoCallback?;
    }
  }

  lemma BeginsAlone(s: State, e: Step, s': State)
    requires Basic(s) && OwnUnfreed(s) && CountsLinked(s) && s.pc.Idle? && Next(s, e, s') && e.Begin? && InUse(s) == {}
    ensures Alone(s')
  {
    OnlyStartBegins(s, e, s');
    hide Next, LoopStep, EndStep, CallbackStep, OtherStep;
    assert InUse(s') == InUse(s) && Own(s'.dev) == Own(s.dev);
    assert s'.lib == s.lib && s'.pc.Starting?;
    hide InUse, Own;
  }

  lemma OnlyStartBegins(s: State, e: Step, s': State)
    requires Next(s, e, s') && e.Begin?
    ensures StartStep(s, e, s')
  {
    hide AlreadyCancelled, Frees, Own, Uncounted, Overcounted;
  }

  lemma {:induction false} StreamAlone(ss: seq<State>, es: seq<Step>, n: nat)
    requires Path(ss, es) && 0 < n < |ss| && es[0].Begin? && Begin !in es[1..n] && ByStreamer(es)
    requires ss[0].pc.Idle? && Basic(ss[0]) && OwnUnfreed(ss[0]) && CountsLinked(ss[0]) && InUse(ss[0]) == {}
    ensures Alone(ss[n])
  {
    hide Next, Basic, CountsLinked, OwnUnfreed, InUse, Alone;
    if n == 1 {
      BeginsAlone(ss[0], es[0], ss[1]);
    } else {
      assert es[1..n] == es[1..n - 1] + [es[n - 1]];
      assert es[n - 1] in es;
      StreamAlone(ss, es, n - 1);
      NextAlone(ss[n - 1], es[n - 1], ss[n]);
    }
  }

  // ---------------------------------------------------------------- exactly when

  lemma CannotFreeLinked(s: State, es: seq<Step>, s': State)
    requires s.pc.Idle? && Basic(s) && OwnUnfreed(s) && CountsLinked(s) && InUse(s) == {}
    requires OneStream(s, es, s') && ByStreamer(es)
    ensures FreedLinked(s, s') == {}
  {
    hide Next, Basic, CountsLinked, OwnUnfreed, UpToDate, NoForeigner;
    var ss :| Path(ss, es) && ss[0] == s && ss[|es|] == s';
    assert es[1..|es|] == es[1..];
    StreamAlone(ss, es, |es|);
  }

  // For every state that any streams, threads and leaks can have led to, when rtlsdr_read_async may
  // be called and nobody is in a callback: the call can end with a transfer that it has freed on
  // libusb's list exactly if a transfer is still on that list now, or callbacks may run on another
  // thread.
  lemma MayFreeLinkedIff(ss: seq<State>, es: seq<Step>, foreign: bool)
    requires Run(ss, es) && MayStart(ss[|es|]) && ss[|es|].cb.NoCallback?
    ensures MayFreeLinked(ss[|es|], foreign) <==> foreign || ss[|es|].lib.linked != {}
  {
    hide Next, Init, CountsLinked, OwnUnfreed, Leads;
    var s := ss[|es|];
    RunKeeps(ss, es, |es|);
    if s.lib.linked != {} {
      var x := FreshId(s.lib.used + s.lib.ends.Keys);
      var t :| t in s.lib.linked;
      var s' := LeakedIsCounted(s, x, t);
      assert x in FreedLinked(s, s');
    } else if foreign {
      var x := FreshId(s.lib.used);
      var s' := ForeignSubmitsFreed(s, x);
      assert x in FreedLinked(s, s');
    } else if MayFreeLinked(s, false) {
      var es', s' :| OneStream(s, es', s') && ByStreamer(es') && FreedLinked(s, s') != {};
      CannotFreeLinked(s, es', s');
    }
  }

  // ---------------------------------------------------------------- two runs

  const Fresh := State(Dev(Inactive, 0, false, 0, 0, None, false), Lib({}, {}, {}, map[]), Idle, Inactive, NoCallback, 0, false, 0)

  // The first stream on a fresh device, a control transfer of another thread that runs the callback,
  // and a cancel: transfer 0 is freed, and then submitted.
  lemma ForeignCallbackFreesLinked() returns (ss: seq<State>, es: seq<Step>)
    ensures Run(ss, es) && es == ForeignRun(0)
    ensures 0 in ss[|es|].lib.freed && 0 in ss[|es|].lib.linked
  {
    hide Next;
    es := ForeignRun(0);
    var s' := ForeignSubmitsFreed(Fresh, 0);
    ss :| Path(ss, es) && ss[0] == Fresh && ss[|es|] == s';
  }

  function Leaving(s: State, pc: Pc): State { s.(pc := pc) }

  // Event handling fails, also in the drain; the one transfer stays linked and is leaked.
  const Leaking := [Return(Broken), Drain, Cancel(false), CancelDone, DrainReturn(Broken), Settle, Decide, Finish]

  lemma DrainsInVain(s: State, x: Id)
    requires s.pc == DrainTop(100) && s.cb.NoCallback? && s.dev.xfers == Some([x]) && s.dev.outstanding == 1
    requires x !in s.lib.ends
    ensures Leads(s, Leaking[1..6], Leaving(s, Deciding))
  {
    hide Leads, StartStep, LoopStep, CallbackStep, OtherStep;
    var es := Leaking[1..6];
    Sets(s, es);
    Extend(s, es, 0, s, TheEnd, Leaving(s, DrainLoop(99, 0)));
    Extend(s, es, 1, Leaving(s, DrainLoop(99, 0)), TheEnd, Leaving(s, DrainLoop(99, 1)));
    Extend(s, es, 2, Leaving(s, DrainLoop(99, 1)), TheEnd, Leaving(s, DrainEvents(99)));
    Extend(s, es, 3, Leaving(s, DrainEvents(99)), TheEnd, Leaving(s, Settling));
    Extend(s, es, 4, Leaving(s, Settling), TheEnd, Leaving(s, Deciding));
    assert es[..5] == es;
  }

  lemma Leaks(s: State, x: Id)
    requires s.pc.Handling? && s.cb.NoCallback? && s.dev.xfers == Some([x]) && s.dev.outstanding == 1 && s.next.Inactive?
    requires x !in s.lib.ends
    ensures Leads(s, Leaking, s.(dev := s.dev.(status := Inactive, xfers := None), pc := Idle))
  {
    hide Leads, StartStep, CallbackStep, OtherStep;
    var es := Leaking;
    var t := Leaving(s, Deciding);
    Sets(s, es);
    Extend(s, es, 0, s, Loop, Leaving(s, DrainTop(100)));
    DrainsInVain(Leaving(s, DrainTop(100)), x);
    Compose(s, es[..1], Leaving(s, DrainTop(100)), es[1..6], t);
    assert es[..1] + es[1..6] == es[..6];
    Extend(s, es, 6, t, TheEnd, t.(dev := s.dev.(xfers := None), pc := Finishing));
    Extend(s, es, 7, t.(dev := s.dev.(xfers := None), pc := Finishing), TheEnd,
           s.(dev := s.dev.(status := Inactive, xfers := None), pc := Idle));
    assert es[..8] == es;
  }

  // With event handling on the streaming thread alone: a first stream leaks transfer 0, and the next
  // frees transfer 1 while it is linked.
  lemma RunAfterLeakFreesLinked() returns (ss: seq<State>, es: seq<Step>)
    ensures Run(ss, es) && ByStreamer(es)
    ensures 1 in ss[|es|].lib.freed && 1 in ss[|es|].lib.linked
  {
    hide Leads, Next;
    var up := UpAndRunning(Fresh, 0);
    Opens(Fresh, 0);
    Leaks(up, 0);
    var idle := up.(dev := up.dev.(status := Inactive, xfers := None), pc := Idle);
    var first := Opening(0) + Submission + Leaking;
    Compose(Fresh, Opening(0) + Submission, up, Leaking, idle);
    var s' := LeakedIsCounted(idle, 1, 0);
    es := first + LeakRun(1, 0);
    Compose(Fresh, first, idle, LeakRun(1, 0), s');
    ss := RunOf(es, s');
  }

  lemma RunOf(es: seq<Step>, s': State) returns (ss: seq<State>)
    requires Leads(Fresh, es, s')
    ensures Run(ss, es) && ss[|es|] == s'
  {
    ss :| Path(ss, es) && ss[0] == Fresh && ss[|es|] == s';
  }
}
