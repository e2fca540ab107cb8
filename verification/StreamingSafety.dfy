// When the teardown of Streaming frees a transfer that is still in use, for every run: whoever handles
// libusb events, whatever an earlier run has left behind, and whatever updates of the count are lost.

module StreamingSafety {
  import opened Wrappers
  import opened Streaming

  // ---------------------------------------------------------------- what every run keeps

  // Linked, or in the hands of a callback.
  function InUse(s: State): set<Id> { s.lib.linked + if s.cb.NoCallback? then {} else {s.cb.t} }

  predicate Active(p: Pc) { !p.Idle? && !p.Starting? && !p.Finishing? }

  ghost predicate Basic(s: State) {
    && InUse(s) <= s.lib.used && s.lib.freed <= s.lib.used && Own(s.dev) <= s.lib.used
    && (s.dev.xfers.None? <==> !Active(s.pc))
    && (!s.cb.NoCallback? && s.cb.who.Streamer? ==> InEvents(s.pc))
  }

  // A run starts with nothing of an earlier one in flight.
  ghost predicate ClearStart(s: State, e: Step) { e.Reset? ==> InUse(s) == {} }

  // Then only its own transfers are in use while it is on.
  ghost predicate UsesOwn(s: State) { Active(s.pc) ==> InUse(s) <= Own(s.dev) }

  ghost predicate FreedUnused(s: State) { s.lib.freed !! InUse(s) }

  ghost predicate OwnUnfreed(s: State) { s.lib.freed !! Own(s.dev) }

  // Nobody is in a callback, and the count is right.
  predicate Quiet(s: State) { s.cb.NoCallback? && s.dev.outstanding == |s.lib.linked| }

  predicate FreesNow(s: State, e: Step) { e.Decide? && s.dev.outstanding == 0 }

  // The new transfers are ones that were never allocated before.
  lemma ResetKeeps(s: State, e: Step, s': State)
    requires Basic(s) && StartStep(s, e, s') && s.pc.Starting?
    ensures Basic(s') && OwnUnfreed(s')
    ensures FreedUnused(s) ==> FreedUnused(s')
    ensures ClearStart(s, e) ==> UsesOwn(s')
  {
    assert InUse(s') == InUse(s) && s'.lib.freed == s.lib.freed;
    assert Own(s'.dev) !! s.lib.used && s'.lib.used == s.lib.used + Own(s'.dev);
    hide InUse, Own, Uncounted, Overcounted;
  }

  lemma SubmitKeeps(s: State, e: Step, s': State)
    requires Basic(s) && OwnUnfreed(s) && StartStep(s, e, s') && s.pc.Submitting?
    ensures Basic(s') && OwnUnfreed(s')
    ensures FreedUnused(s) ==> FreedUnused(s')
    ensures UsesOwn(s) ==> UsesOwn(s')
  {
    assert Own(s'.dev) == Own(s.dev) && s'.lib.freed == s.lib.freed && s'.lib.used == s.lib.used;
    assert InUse(s') <= InUse(s) + Own(s.dev) by {
      if e.Submit? { assert s.dev.xfers.value[s.pc.i] in Own(s.dev); }
    }
    hide InUse, Own;
  }

  lemma StartKeeps(s: State, e: Step, s': State)
    requires Basic(s) && OwnUnfreed(s) && StartStep(s, e, s')
    ensures Basic(s') && OwnUnfreed(s')
    ensures FreedUnused(s) ==> FreedUnused(s')
    ensures UsesOwn(s) && ClearStart(s, e) ==> UsesOwn(s')
  {
    if s.pc.Starting? {
      ResetKeeps(s, e, s');
      hide *;
    } else if s.pc.Submitting? {
      SubmitKeeps(s, e, s');
      hide *;
    } else {
      assert Own(s'.dev) == Own(s.dev) && InUse(s') == InUse(s) && s'.lib == s.lib;
      hide InUse, Own;
    }
  }

  // Steps of the streaming thread that only move it.
  ghost predicate OnlyMoves(s: State, s': State) {
    && s'.lib == s.lib && s'.cb == s.cb && s'.offset == s.offset
    && s'.dev.xfers == s.dev.xfers && s'.dev.outstanding == s.dev.outstanding
    && Active(s'.pc) == Active(s.pc) && !s'.pc.Storing?
    && (s.cb.NoCallback? || s.cb.who.Foreign? || InEvents(s'.pc) || !InEvents(s.pc))
  }

  lemma LoopMoves(s: State, e: Step, s': State)
    requires LoopStep(s, e, s')
    ensures OnlyMoves(s, s')
  {
    hide AlreadyCancelled;
  }

  lemma EndMoves(s: State, e: Step, s': State)
    requires EndStep(s, e, s') && !e.Decide?
    ensures OnlyMoves(s, s')
  {
    hide AlreadyCancelled;
  }

  lemma MoveKeeps(s: State, s': State)
    requires Basic(s) && OwnUnfreed(s) && OnlyMoves(s, s')
    ensures Basic(s') && OwnUnfreed(s')
    ensures FreedUnused(s) ==> FreedUnused(s')
    ensures UsesOwn(s) ==> UsesOwn(s')
  {
    assert Own(s'.dev) == Own(s.dev) && InUse(s') == InUse(s);
    hide Own, InUse;
  }

  // The one step that frees: with nobody in a callback and an exact count, zero means that nothing
  // is linked.
  lemma DecideKeeps(s: State, e: Step, s': State)
    requires Basic(s) && OwnUnfreed(s) && CountsLinked(s) && EndStep(s, e, s') && e.Decide?
    ensures Basic(s') && OwnUnfreed(s') && UsesOwn(s')
    ensures FreedUnused(s) && (FreesNow(s, e) ==> Quiet(s)) ==> FreedUnused(s')
  {
    DecideFrees(s, e, s');
    hide AlreadyCancelled, EndStep, Frees;
    assert Own(s'.dev) == {} && InUse(s') == InUse(s);
    if FreesNow(s, e) {
      assert s'.lib.freed == s.lib.freed + Own(s.dev);
      assert Quiet(s) ==> s.lib.linked == {};
    }
    hide Own;
  }

  lemma DecideFrees(s: State, e: Step, s': State)
    requires EndStep(s, e, s') && e.Decide?
    ensures s.pc.Deciding? && s'.pc.Finishing? && s'.cb == s.cb && s'.dev.xfers == None
    ensures s'.lib == s.lib.(freed := s.lib.freed + if FreesNow(s, e) then Own(s.dev) else {})
  {
    hide AlreadyCancelled;
  }

  lemma CallbackKeeps(s: State, e: Step, s': State)
    requires Basic(s) && OwnUnfreed(s) && CallbackStep(s, e, s')
    ensures Basic(s') && OwnUnfreed(s')
    ensures FreedUnused(s) ==> FreedUnused(s')
    ensures UsesOwn(s) ==> UsesOwn(s')
  {
    assert Own(s'.dev) == Own(s.dev);
    assert InUse(s') <= InUse(s);
  }

  lemma NextKeeps(s: State, e: Step, s': State)
    requires Basic(s) && OwnUnfreed(s) && CountsLinked(s) && Next(s, e, s')
    ensures Basic(s') && OwnUnfreed(s')
    ensures FreedUnused(s) && (FreesNow(s, e) ==> Quiet(s)) ==> FreedUnused(s')
    ensures UsesOwn(s) && ClearStart(s, e) ==> UsesOwn(s')
  {
    hide StartStep, LoopStep, EndStep, CallbackStep, CountsLinked, ClearStart, Quiet, FreesNow, OnlyMoves;
    if StartStep(s, e, s') { StartKeeps(s, e, s'); }
    else if LoopStep(s, e, s') { LoopMoves(s, e, s'); MoveKeeps(s, s'); }
    else if EndStep(s, e, s') { if e.Decide? { DecideKeeps(s, e, s'); } else { EndMoves(s, e, s'); MoveKeeps(s, s'); } }
    else if CallbackStep(s, e, s') { CallbackKeeps(s, e, s'); }
  }

  lemma InitHolds(s: State)
    requires Init(s)
    ensures Basic(s) && OwnUnfreed(s) && UsesOwn(s) && FreedUnused(s)
  {
  }

  lemma {:induction false} RunKeeps(ss: seq<State>, es: seq<Step>, n: nat)
    requires Run(ss, es) && n < |ss|
    ensures Basic(ss[n]) && OwnUnfreed(ss[n]) && CountsLinked(ss[n])
  {
    RunCounts(ss, es, n);
    hide Next, CountsLinked, Basic, OwnUnfreed, Init;
    if n == 0 {
      InitHolds(ss[0]);
    } else {
      RunKeeps(ss, es, n - 1);
      NextKeeps(ss[n - 1], es[n - 1], ss[n]);
    }
  }

  // ---------------------------------------------------------------- exactly when it is safe

  ghost predicate ClearStarts(ss: seq<State>, es: seq<Step>, n: nat)
    requires Run(ss, es) && n < |ss|
  {
    forall i :: 0 <= i < n ==> ClearStart(ss[i], es[i])
  }

  ghost predicate QuietFrees(ss: seq<State>, es: seq<Step>, n: nat)
    requires Run(ss, es) && n < |ss|
  {
    forall i :: 0 <= i < n && FreesNow(ss[i], es[i]) ==> Quiet(ss[i])
  }

  lemma {:induction false} QuietIsSafe(ss: seq<State>, es: seq<Step>, n: nat)
    requires Run(ss, es) && n < |ss| && QuietFrees(ss, es, n)
    ensures FreedUnused(ss[n])
  {
    hide Next, CountsLinked, Basic, OwnUnfreed, FreedUnused, Quiet, FreesNow, Init;
    if n == 0 {
      InitHolds(ss[0]);
    } else {
      QuietIsSafe(ss, es, n - 1);
      RunKeeps(ss, es, n - 1);
      NextKeeps(ss[n - 1], es[n - 1], ss[n]);
    }
  }

  lemma {:induction false} ClearRunUsesOwn(ss: seq<State>, es: seq<Step>, n: nat)
    requires Run(ss, es) && n < |ss| && ClearStarts(ss, es, n)
    ensures UsesOwn(ss[n])
  {
    hide Next, CountsLinked, Basic, OwnUnfreed, UsesOwn, ClearStart, Init;
    if n == 0 {
      InitHolds(ss[0]);
    } else {
      ClearRunUsesOwn(ss, es, n - 1);
      RunKeeps(ss, es, n - 1);
      NextKeeps(ss[n - 1], es[n - 1], ss[n]);
    }
  }

  // A free that is not quiet takes something that is in use.
  lemma LoudFreeHitsUse(s: State, e: Step, s': State)
    requires Basic(s) && CountsLinked(s) && UsesOwn(s) && Next(s, e, s') && FreesNow(s, e) && !Quiet(s)
    ensures !FreedUnused(s')
  {
    hide StartStep, LoopStep, CallbackStep, AlreadyCancelled;
    DecideIsEnd(s, e, s');
    if s.cb.NoCallback? {
      assert |s.lib.linked| != 0;
      var t :| t in s.lib.linked;
      assert t in InUse(s') && t in s'.lib.freed;
    } else {
      assert s.cb.t in InUse(s') && s.cb.t in s'.lib.freed;
    }
  }

  lemma DecideIsEnd(s: State, e: Step, s': State)
    requires Next(s, e, s') && e.Decide?
    ensures EndStep(s, e, s') && s.pc.Deciding?
  {
    hide AlreadyCancelled, Frees;
  }

  // In every run whose streams start with nothing in flight: no freed transfer is ever linked or in
  // a callback if and only if each time something is freed nobody is in a callback and the count is
  // right. With callbacks on other threads neither is certain.
  lemma FreedUnusedIff(ss: seq<State>, es: seq<Step>, n: nat)
    requires Run(ss, es) && n < |ss| && ClearStarts(ss, es, n)
    ensures QuietFrees(ss, es, n) <==> forall k :: 0 <= k <= n ==> FreedUnused(ss[k])
  {
    if QuietFrees(ss, es, n) {
      forall k | 0 <= k <= n ensures FreedUnused(ss[k]) { QuietIsSafe(ss, es, k); }
    } else {
      var k :| 0 <= k < n && FreesNow(ss[k], es[k]) && !Quiet(ss[k]);
      RunKeeps(ss, es, k);
      ClearRunUsesOwn(ss, es, k);
      hide Next, CountsLinked, Basic, OwnUnfreed, UsesOwn, FreedUnused, Quiet, FreesNow;
      LoudFreeHitsUse(ss[k], es[k], ss[k + 1]);
    }
  }

  // ---------------------------------------------------------------- when the count is not off

  // The submission loop and a callback of another thread are both between reading the count and
  // writing it.
  predicate Overlap(s: State) { s.pc.Storing? && (s.cb.Uncounting? || s.cb.Recounting?) }

  predicate UpToDate(s: State) {
    && (s.pc.Storing? ==> s.pc.v == s.dev.outstanding)
    && (s.cb.Uncounting? || s.cb.Recounting? ==> s.cb.v == s.dev.outstanding)
    && (Active(s.pc) ==> s.offset == 0)
  }

  lemma StartUpToDate(s: State, e: Step, s': State)
    requires UpToDate(s) && !Overlap(s) && StartStep(s, e, s') && ClearStart(s, e)
    ensures UpToDate(s')
  {
  }

  lemma CallbackUpToDate(s: State, e: Step, s': State)
    requires UpToDate(s) && !Overlap(s) && CallbackStep(s, e, s')
    ensures UpToDate(s')
  {
  }

  lemma NextUpToDate(s: State, e: Step, s': State)
    requires UpToDate(s) && !Overlap(s) && Next(s, e, s') && ClearStart(s, e)
    ensures UpToDate(s')
  {
    hide StartStep, LoopStep, EndStep, CallbackStep, ClearStart;
    if StartStep(s, e, s') { StartUpToDate(s, e, s'); }
    else if LoopStep(s, e, s') { LoopMoves(s, e, s'); }
    else if EndStep(s, e, s') { if e.Decide? { DecideUpToDate(s, e, s'); } else { EndMoves(s, e, s'); } }
    else if CallbackStep(s, e, s') { CallbackUpToDate(s, e, s'); }
  }

  lemma DecideUpToDate(s: State, e: Step, s': State)
    requires UpToDate(s) && EndStep(s, e, s') && e.Decide?
    ensures UpToDate(s')
  {
    hide AlreadyCancelled, Frees;
  }

  // No update is lost, and the count is exact, as long as no callback writes it while the submission
  // loop does.
  lemma {:induction false} CountIsExact(ss: seq<State>, es: seq<Step>, n: nat)
    requires Run(ss, es) && n < |ss| && ClearStarts(ss, es, n) && forall i :: 0 <= i < n ==> !Overlap(ss[i])
    ensures UpToDate(ss[n])
    ensures Active(ss[n].pc) && ss[n].cb.NoCallback? && !ss[n].pc.Counting? && !ss[n].pc.Storing? ==>
              ss[n].dev.outstanding == |ss[n].lib.linked|
  {
    RunKeeps(ss, es, n);
    if n > 0 {
      CountIsExact(ss, es, n - 1);
      RunKeeps(ss, es, n - 1);
      hide Next, Basic, OwnUnfreed, ClearStart, UpToDate, Overlap, CountsLinked;
      NextUpToDate(ss[n - 1], es[n - 1], ss[n]);
    }
    assert UpToDate(ss[n]) && CountsLinked(ss[n]);
  }

  // So, without such an overlap, the streams are safe if and only if nothing is freed while a
  // callback of another thread is on its way.
  lemma SafeIffNoCallbackOnFree(ss: seq<State>, es: seq<Step>, n: nat)
    requires Run(ss, es) && n < |ss| && ClearStarts(ss, es, n) && forall i :: 0 <= i < n ==> !Overlap(ss[i])
    ensures (forall i :: 0 <= i < n && FreesNow(ss[i], es[i]) ==> ss[i].cb.NoCallback?)
            <==> forall k :: 0 <= k <= n ==> FreedUnused(ss[k])
  {
    FreedUnusedIff(ss, es, n);
    forall i | 0 <= i < n && FreesNow(ss[i], es[i]) ensures Quiet(ss[i]) <==> ss[i].cb.NoCallback? {
      CountIsExact(ss, es, i);
      DecideIsEnd(ss[i], es[i], ss[i + 1]);
    }
    hide Run, FreedUnused, Quiet, FreesNow, ClearStarts;
  }

  // ---------------------------------------------------------------- results

  // Where frees are quiet, the walk of a later close meets live transfers only, and no callback runs
  // for a freed one.
  lemma NeverFreesLinked(ss: seq<State>, es: seq<Step>, n: nat)
    requires Run(ss, es) && n < |ss| && QuietFrees(ss, es, n)
    ensures ss[n].lib.freed !! ss[n].lib.linked
    ensures !ss[n].cb.NoCallback? ==> ss[n].cb.t !in ss[n].lib.freed
  {
    QuietIsSafe(ss, es, n);
  }

  function XferAt(d: Dev, i: nat): Option<Id> {
    if d.xfers.Some? && i < |d.xfers.value| then Some(d.xfers.value[i]) else None
  }

  // The transfer a step hands to libusb, or takes from it.
  function Touched(s: State, e: Step): Option<Id> {
    match e
    case Land(_, t, _) => Some(t)
    case Submit(_) => if s.pc.Submitting? then XferAt(s.dev, s.pc.i) else None
    case Cancel(_) => if s.pc.CancelLoop? || s.pc.DrainLoop? then XferAt(s.dev, s.pc.i) else None
    case Resubmit(_) => if s.cb.WillSubmit? then Some(s.cb.t) else None
    case _ => None
  }

  // Nor is a freed transfer submitted, cancelled (in the event loop or in the drain) or completed.
  lemma NeverUsesFreed(ss: seq<State>, es: seq<Step>, n: nat)
    requires Run(ss, es) && n < |es| && QuietFrees(ss, es, n) && Touched(ss[n], es[n]).Some?
    ensures Touched(ss[n], es[n]).value !in ss[n].lib.freed
  {
    var s, e := ss[n], es[n];
    QuietIsSafe(ss, es, n);
    RunKeeps(ss, es, n);
    assert Next(s, e, ss[n + 1]);
    hide Run, CountsLinked, AlreadyCancelled, Frees;
    if e.Submit? || e.Cancel? {
      assert Touched(s, e).value in Own(s.dev);
    } else if e.Land? {
      LandTakesLinked(s, e, ss[n + 1]);
    }
  }

  lemma LandTakesLinked(s: State, e: Step, s': State)
    requires Next(s, e, s') && e.Land?
    ensures e.t in s.lib.linked
  {
    hide AlreadyCancelled, Frees;
  }

  predicate Distinct(d: Dev) { d.xfers.Some? ==> forall i, j :: 0 <= i < j < |d.xfers.value| ==> d.xfers.value[i] != d.xfers.value[j] }

  lemma NextDistinct(s: State, e: Step, s': State)
    requires Distinct(s.dev) && Next(s, e, s')
    ensures Distinct(s'.dev)
  {
    hide StartStep, LoopStep, EndStep, CallbackStep;
    if StartStep(s, e, s') { StartDistinct(s, e, s'); }
    else if LoopStep(s, e, s') { LoopMoves(s, e, s'); }
    else if EndStep(s, e, s') { if e.Decide? { DecideFrees(s, e, s'); } else { EndMoves(s, e, s'); } }
    else if CallbackStep(s, e, s') { CallbackDistinct(s, e, s'); }
  }

  lemma StartDistinct(s: State, e: Step, s': State)
    requires Distinct(s.dev) && StartStep(s, e, s')
    ensures Distinct(s'.dev)
  {
  }

  lemma CallbackDistinct(s: State, e: Step, s': State)
    requires CallbackStep(s, e, s')
    ensures s'.dev.xfers == s.dev.xfers
  {
  }

  lemma {:induction false} RunDistinct(ss: seq<State>, es: seq<Step>, n: nat)
    requires Run(ss, es) && n < |ss|
    ensures Distinct(ss[n].dev)
  {
    hide Next, Distinct, Init;
    if n == 0 {
      InitDistinct(ss[0]);
    } else {
      RunDistinct(ss, es, n - 1);
      NextDistinct(ss[n - 1], es[n - 1], ss[n]);
    }
  }

  lemma InitDistinct(s: State)
    requires Init(s)
    ensures Distinct(s.dev)
  {
  }

  // In every run, whoever handles events: what is freed are the transfers of the stream that ends, each
  // once, and none of them had been freed before.
  lemma FreesOnce(ss: seq<State>, es: seq<Step>, n: nat)
    requires Run(ss, es) && n < |es| && es[n].Decide?
    ensures var s, s' := ss[n], ss[n + 1];
            && s.dev.xfers.Some?
            && s'.lib.freed == s.lib.freed + (if s.dev.outstanding == 0 then set x | x in s.dev.xfers.value else {})
            && (forall x :: x in s.dev.xfers.value ==> x !in s.lib.freed)
            && forall i, j :: 0 <= i < j < |s.dev.xfers.value| ==> s.dev.xfers.value[i] != s.dev.xfers.value[j]
  {
    RunKeeps(ss, es, n);
    RunDistinct(ss, es, n);
    DecideIsEnd(ss[n], es[n], ss[n + 1]);
    DecideFrees(ss[n], es[n], ss[n + 1]);
    assert forall x :: x in ss[n].dev.xfers.value ==> x in Own(ss[n].dev);
  }

  // Nothing else frees anything.
  lemma OnlyDecideFrees(s: State, e: Step, s': State)
    requires Next(s, e, s') && !e.Decide?
    ensures s'.lib.freed == s.lib.freed
  {
    hide StartStep, LoopStep, EndStep, CallbackStep, OtherStep;
    if StartStep(s, e, s') { StartFreesNothing(s, e, s'); }
    else if LoopStep(s, e, s') { LoopMoves(s, e, s'); }
    else if EndStep(s, e, s') { EndMoves(s, e, s'); }
    else { OthersFreeNothing(s, e, s'); }
  }

  lemma StartFreesNothing(s: State, e: Step, s': State)
    requires StartStep(s, e, s')
    ensures s'.lib.freed == s.lib.freed
  {
  }

  lemma OthersFreeNothing(s: State, e: Step, s': State)
    requires CallbackStep(s, e, s') || OtherStep(s, e, s')
    ensures s'.lib.freed == s.lib.freed
  {
  }

  // At the end of a run everything is freed or everything is leaked. With nobody in a callback and
  // an exact count, it is freed exactly if nothing is linked.
  lemma FreesAllOrLeaksAll(ss: seq<State>, es: seq<Step>, n: nat)
    requires Run(ss, es) && n < |es| && es[n].Decide?
    ensures var s, s' := ss[n], ss[n + 1];
            && s.dev.xfers.Some? && s'.dev.xfers == None
            && (s'.lib.freed == s.lib.freed + Own(s.dev) || s'.lib.freed == s.lib.freed)
            && (FreesNow(s, es[n]) ==> s'.lib.freed == s.lib.freed + Own(s.dev))
            && (Quiet(s) ==> (FreesNow(s, es[n]) <==> s.lib.linked == {}))
  {
    var s, s' := ss[n], ss[n + 1];
    RunKeeps(ss, es, n);
    DecideIsEnd(s, es[n], s');
    DecideFrees(s, es[n], s');
    assert Quiet(s) ==> s.dev.outstanding == |s.lib.linked|;
  }

  // ---------------------------------------------------------------- one event-handling thread

  // What the driver relies on: callbacks run on the streaming thread, and a run starts with no
  // transfer of an earlier one in flight.
  ghost predicate Expected(s: State, e: Step) {
    (e.Land? ==> e.who.Streamer?) && (e.Reset? ==> s.lib.linked == {})
  }

  ghost predicate ExpectedRun(ss: seq<State>, es: seq<Step>) {
    Run(ss, es) && forall i :: 0 <= i < |es| ==> Expected(ss[i], es[i])
  }

  predicate NoForeigner(s: State) { !s.cb.NoCallback? ==> s.cb.who.Streamer? }

  // A run that has left nothing behind will say that it is over.
  predicate SaysOver(s: State) {
    && (s.pc.Deciding? && s.dev.outstanding == 0 ==> s.next.Inactive?)
    && (s.pc.Finishing? && s.lib.linked == {} ==> s.next.Inactive?)
  }

  lemma NextHasNoForeigner(s: State, e: Step, s': State)
    requires NoForeigner(s) && Next(s, e, s') && (e.Land? ==> e.who.Streamer?)
    ensures NoForeigner(s')
  {
    OnlyCallbacksSetCallback(s, e, s');
    hide StartStep, LoopStep, EndStep, OtherStep;
  }

  lemma OnlyCallbacksSetCallback(s: State, e: Step, s': State)
    requires Next(s, e, s')
    ensures s'.cb == s.cb || CallbackStep(s, e, s')
  {
    hide StartStep, LoopStep, EndStep, CallbackStep;
    if StartStep(s, e, s') { StartSetsNoCallback(s, e, s'); }
    else if LoopStep(s, e, s') { LoopMoves(s, e, s'); }
    else if EndStep(s, e, s') { if e.Decide? { DecideFrees(s, e, s'); } else { EndMoves(s, e, s'); } }
  }

  lemma StartSetsNoCallback(s: State, e: Step, s': State)
    requires StartStep(s, e, s')
    ensures s'.cb == s.cb
  {
  }

  lemma {:induction false} ExpectedHasNoForeigner(ss: seq<State>, es: seq<Step>, n: nat)
    requires ExpectedRun(ss, es) && n < |ss|
    ensures NoForeigner(ss[n])
  {
    if n > 0 {
      ExpectedHasNoForeigner(ss, es, n - 1);
      assert Expected(ss[n - 1], es[n - 1]);
      hide Next, NoForeigner;
      NextHasNoForeigner(ss[n - 1], es[n - 1], ss[n]);
    }
  }

  // Then starts are clear, nothing overlaps, and frees are quiet.
  lemma ExpectedIsQuiet(ss: seq<State>, es: seq<Step>, n: nat)
    requires ExpectedRun(ss, es) && n < |ss|
    ensures ClearStarts(ss, es, n) && QuietFrees(ss, es, n) && FreedUnused(ss[n]) && UpToDate(ss[n])
    ensures !InEvents(ss[n].pc) ==> ss[n].cb.NoCallback?
  {
    forall i | 0 <= i <= n ensures !InEvents(ss[i].pc) ==> ss[i].cb.NoCallback? {
      RunKeeps(ss, es, i);
      ExpectedHasNoForeigner(ss, es, i);
    }
    forall i | 0 <= i < n ensures ClearStart(ss[i], es[i]) {
      assert Expected(ss[i], es[i]);
      if es[i].Reset? { ResetIsStarting(ss[i], es[i], ss[i + 1]); }
    }
    CountIsExact(ss, es, n);
    forall i | 0 <= i < n && FreesNow(ss[i], es[i]) ensures Quiet(ss[i]) {
      CountIsExact(ss, es, i);
      DecideIsEnd(ss[i], es[i], ss[i + 1]);
    }
    QuietIsSafe(ss, es, n);
  }

  lemma ResetIsStarting(s: State, e: Step, s': State)
    requires Next(s, e, s') && e.Reset?
    ensures s.pc.Starting?
  {
    hide AlreadyCancelled, Frees;
  }

  // The steps before the end, and those of other threads, do not come near it.
  lemma EarlySteps(s: State, e: Step, s': State)
    requires StartStep(s, e, s') || LoopStep(s, e, s')
    ensures !s'.pc.Deciding? && !s'.pc.Finishing?
  {
    hide AlreadyCancelled;
  }

  lemma OthersKeepStreamer(s: State, e: Step, s': State)
    requires CallbackStep(s, e, s') || OtherStep(s, e, s')
    ensures s'.pc == s.pc && s'.next == s.next
    ensures !s.pc.Idle? && s.cb.NoCallback? && !e.Land? ==>
              s'.dev.outstanding == s.dev.outstanding && s'.lib.linked == s.lib.linked
    ensures e.Land? && e.who.Streamer? && s.cb.NoCallback? ==> InEvents(s.pc)
  {
  }

  lemma EndSaysOver(s: State, e: Step, s': State)
    requires SaysOver(s) && EndStep(s, e, s') && (s.pc.Deciding? ==> s.dev.outstanding == |s.lib.linked|)
    ensures SaysOver(s')
  {
    hide AlreadyCancelled, Own, Frees;
  }

  lemma NextSaysOver(s: State, e: Step, s': State)
    requires SaysOver(s) && Next(s, e, s') && (!InEvents(s.pc) ==> s.cb.NoCallback? && (Active(s.pc) ==> s.offset == 0))
    requires CountsLinked(s) && (e.Land? ==> e.who.Streamer?)
    ensures SaysOver(s')
  {
    assert s.pc.Deciding? ==> s.dev.outstanding == |s.lib.linked|;
    assert InEvents(s.pc) ==> !s.pc.Deciding? && !s.pc.Finishing?;
    hide StartStep, LoopStep, EndStep, CallbackStep, OtherStep, CountsLinked;
    if StartStep(s, e, s') || LoopStep(s, e, s') { EarlySteps(s, e, s'); }
    else if EndStep(s, e, s') { EndSaysOver(s, e, s'); }
    else { OthersKeepStreamer(s, e, s'); }
  }

  lemma InitSaysOver(s: State)
    requires Init(s)
    ensures SaysOver(s)
  {
  }

  // With one thread that handles events, a run that leaves nothing linked ends with INACTIVE.
  lemma {:induction false} RunOverSaysSo(ss: seq<State>, es: seq<Step>, n: nat)
    requires ExpectedRun(ss, es) && n < |ss|
    ensures SaysOver(ss[n])
  {
    hide Next, SaysOver, CountsLinked, ClearStarts, QuietFrees, Basic, OwnUnfreed, FreedUnused, Init;
    if n == 0 {
      InitSaysOver(ss[0]);
    } else {
      RunOverSaysSo(ss, es, n - 1);
      ExpectedIsQuiet(ss, es, n - 1);
      RunKeeps(ss, es, n - 1);
      assert Expected(ss[n - 1], es[n - 1]);
      NextSaysOver(ss[n - 1], es[n - 1], ss[n]);
    }
  }

  // ---------------------------------------------------------------- winding down

  // Past its submissions, and no longer RUNNING.
  predicate WindingDown(s: State) {
    !s.dev.status.Running? && !s.cb.WillSubmit? && !StillSubmitting(s.pc)
  }

  lemma WindDownStep(s: State, e: Step, s': State)
    requires WindingDown(s) && Next(s, e, s') && !e.Begin? && !s.next.Running?
    ensures WindingDown(s') && s'.lib.linked <= s.lib.linked
  {
    hide StartStep, LoopStep, EndStep, CallbackStep, OtherStep, WindingDown;
    if StartStep(s, e, s') { NoStartWithoutBegin(s, e, s'); }
    else if LoopStep(s, e, s') { LoopWindsDown(s, e, s'); }
    else if EndStep(s, e, s') { EndWindsDown(s, e, s'); }
    else { OthersWindDown(s, e, s'); }
  }

  lemma LoopWindsDown(s: State, e: Step, s': State)
    requires WindingDown(s) && LoopStep(s, e, s')
    ensures WindingDown(s') && s'.lib.linked == s.lib.linked
  {
    hide AlreadyCancelled;
  }

  lemma EndWindsDown(s: State, e: Step, s': State)
    requires WindingDown(s) && EndStep(s, e, s') && !s.next.Running?
    ensures WindingDown(s') && s'.lib.linked == s.lib.linked
  {
    hide AlreadyCancelled, Frees;
  }

  lemma OthersWindDown(s: State, e: Step, s': State)
    requires WindingDown(s) && (CallbackStep(s, e, s') || OtherStep(s, e, s'))
    ensures WindingDown(s') && s'.lib.linked <= s.lib.linked
  {
    hide Uncounted, Overcounted;
  }

  lemma NoStartWithoutBegin(s: State, e: Step, s': State)
    requires StartStep(s, e, s') && WindingDown(s)
    ensures e.Begin?
  {
  }

  lemma {:induction false} NextStatusNeverRunning(ss: seq<State>, es: seq<Step>, n: nat)
    requires Run(ss, es) && n < |ss|
    ensures !ss[n].next.Running?
  {
    if n > 0 {
      NextStatusNeverRunning(ss, es, n - 1);
      assert Next(ss[n - 1], es[n - 1], ss[n]);
      hide Run, AlreadyCancelled, Frees, FreeBuffers, CancelAsync, Acted, Refused;
    }
  }

  // Once the stream winds down, nothing is put back on the flying list until it is started again.
  lemma {:induction false} WindDownOnlyShrinks(ss: seq<State>, es: seq<Step>, m: nat, n: nat)
    requires Run(ss, es) && m <= n < |ss| && WindingDown(ss[m]) && Begin !in es[m..n]
    ensures WindingDown(ss[n]) && ss[n].lib.linked <= ss[m].lib.linked
  {
    hide Next, Init, WindingDown, StillSubmitting;
    if m < n {
      assert es[m..n] == es[m..n - 1] + [es[n - 1]];
      WindDownOnlyShrinks(ss, es, m, n - 1);
      NextStatusNeverRunning(ss, es, n - 1);
      WindDownStep(ss[n - 1], es[n - 1], ss[n]);
    }
  }

  // What ends a stream from inside: the device is gone, a transfer cannot be submitted again, or as
  // many errors in a row as there are transfers.
  predicate Fatal(s: State, e: Step) {
    match s.cb
    case Counted(_, _, end) =>
      && e.Act?
      && (end.NoDevice?
          || (!end.Completed? && !end.Cancelled? && s.dev.errors + (if end.Error? then 1 else 0) >= s.dev.bufNum))
    case WillSubmit(_, _) => e == Resubmit(false)
    case _ => false
  }

  predicate StillSubmitting(p: Pc) { p.Starting? || p.Submitting? || p.Counting? || p.Storing? }

  lemma FatalWindsDown(s: State, e: Step, s': State)
    requires Next(s, e, s') && Fatal(s, e) && !StillSubmitting(s.pc)
    ensures s'.dev.lost && WindingDown(s') && s'.lib.linked == s.lib.linked
  {
    hide AlreadyCancelled, Frees, StartStep, LoopStep, EndStep;
    if StartStep(s, e, s') || LoopStep(s, e, s') || EndStep(s, e, s') {
      OwnStepsAreNotFatal(s, e, s');
    }
  }

  lemma OwnStepsAreNotFatal(s: State, e: Step, s': State)
    requires StartStep(s, e, s') || LoopStep(s, e, s') || EndStep(s, e, s')
    ensures !Fatal(s, e)
  {
    hide AlreadyCancelled, Frees;
  }

  // From then on, whoever handles events, the flying list only drains until the stream is started
  // again, provided the submission loop is over.
  lemma FatalEndDrains(ss: seq<State>, es: seq<Step>, m: nat, n: nat)
    requires Run(ss, es) && m < n < |ss| && Fatal(ss[m], es[m]) && !StillSubmitting(ss[m].pc) && Begin !in es[m + 1..n]
    ensures ss[n].lib.linked <= ss[m].lib.linked && !ss[n].dev.status.Running?
  {
    FatalWindsDown(ss[m], es[m], ss[m + 1]);
    WindDownOnlyShrinks(ss, es, m + 1, n);
  }

  // Only a fatal end can come earlier: on the streaming thread a callback never runs in the
  // submission loop.
  lemma FatalEndDrainsAlways(ss: seq<State>, es: seq<Step>, m: nat, n: nat)
    requires ExpectedRun(ss, es) && m < n < |ss| && Fatal(ss[m], es[m]) && Begin !in es[m + 1..n]
    ensures ss[n].lib.linked <= ss[m].lib.linked && !ss[n].dev.status.Running?
  {
    ExpectedIsQuiet(ss, es, m);
    FatalEndDrains(ss, es, m, n);
  }
}
