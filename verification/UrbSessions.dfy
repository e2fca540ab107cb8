// The same transfer submitted again and again, while the kernel may still hold URBs of earlier
// submissions: those that usbi_handle_disconnect left behind. op_handle_events takes the descriptor
// out of the poll set first and reaps nothing for the handle afterwards; this module says what the
// two guards against a stale URB are worth if one is reaped all the same. It comes back with the
// usercontext that its slot in memory holds by then, and writes nothing into the user's buffer.

module UrbSessions {
  import opened UrbEngine
  import opened UrbKernel

  // A URB of a submission by its address, counted in URBs.
  datatype Ptr = Ptr(submission: nat, address: nat)

  // The submission that is on, in an array at address arr; context: the addresses at which usercontext
  // points to the transfer; stale: URBs of earlier submissions that the kernel still holds.
  // submissions also numbers them. residue, where submissions that failed at their first URB have left
  // its usercontext, and reports are kept for the proof.
  datatype Session = Session(
    e: Env, w: World, arr: nat, context: set<nat>, stale: set<Ptr>, submissions: nat, residue: set<nat>, reports: nat)

  datatype SessionStep =
    | Own(step: Step)             // of the submission that is on
    | ReapStale(p: Ptr)
    | Resubmit(e: Env, w: World, arr: nat)
    | RefusedFirst(n: nat, arr: nat)   // a submission of n URBs that ends with the first

  // The submission loop sets usercontext in each URB before it hands it over, so in the ones the kernel
  // took and in the one it refused.
  predicate InFilled(e: Env, arr: nat, address: nat) { arr <= address <= arr + e.submitted && address < arr + |e.layout| }

  function Filled(e: Env, arr: nat): set<nat> { set a: nat | a < arr + |e.layout| && InFilled(e, arr, a) }

  predicate InArray(n: nat, arr: nat, address: nat) { arr <= address < arr + n }

  function Slots(n: nat, arr: nat): set<nat> { set a: nat | a < arr + n && InArray(n, arr, a) }

  // reap_for_handle passes the URB on, and handle_bulk_completion finds tpriv->urbs set.
  predicate Handled(s: Session, p: Ptr) { p.address in s.context && s.w.t.Live() }

  function Left(s: Session): set<Ptr> {
    set i: nat | i < s.e.submitted && i !in s.w.done && i !in s.w.dropped :: Ptr(s.submissions, s.arr + i)
  }

  // zeroing: usercontext is set to NULL in every URB before the array is freed, though not when the first
  // URB is refused. A new array is cleared when it is allocated. A stale URB that is handled may do anything to the transfer.
  ghost predicate SessionNext(zeroing: bool, s: Session, x: SessionStep, s': Session)
    requires EnvOk(s.e)
  {
    match x
    case Own(k) =>
      && Next(s.e, s.w, k, s'.w)
      && s' == s.(w := s'.w, reports := s'.reports,
                  context := if zeroing && s.w.t.Live() && !s'.w.t.Live() then s.context - Slots(|s.e.layout|, s.arr) else s.context)
      && s'.reports == s.reports + |s'.w.deliveries| - |s.w.deliveries|
    case ReapStale(p) =>
      && p in s.stale
      && s' == s.(stale := s.stale - {p}, w := s'.w, context := s'.context, reports := s'.reports)
      && (!Handled(s, p) ==> s' == s.(stale := s.stale - {p}))
    case Resubmit(e, w, arr) =>
      && !s.w.t.Live() && EnvOk(e) && KernelData(e) && Init(e, w)
      && s' == Session(e, w, arr, s.context - Slots(|e.layout|, arr) + Filled(e, arr), s.stale + Left(s), s.submissions + 1,
                    s.residue - Slots(|e.layout|, arr), s.reports)
    case RefusedFirst(n, arr) =>
      && !s.w.t.Live() && n > 0
      && s' == s.(context := s.context - Slots(n, arr) + {arr}, residue := s.residue - Slots(n, arr) + {arr})
  }

  ghost predicate SessionInit(s: Session) {
    && EnvOk(s.e) && KernelData(s.e) && Init(s.e, s.w)
    && s.context == Filled(s.e, s.arr) && s.stale == {} && s.submissions == 1 && s.residue == {} && s.reports == 0
  }

  ghost predicate SessionRun(zeroing: bool, ss: seq<Session>, xs: seq<SessionStep>) {
    && |ss| == |xs| + 1 && SessionInit(ss[0])
    && forall i :: 0 <= i < |xs| ==> EnvOk(ss[i].e) && SessionNext(zeroing, ss[i], xs[i], ss[i + 1])
  }

  // A new submission does not get to a slot where the kernel still holds a URB.
  predicate Fresh(s: Session, x: SessionStep) {
    && (x.Resubmit? ==> forall p :: p in s.stale + Left(s) ==> !InFilled(x.e, x.arr, p.address))
    && (x.RefusedFirst? ==> forall p :: p in s.stale + Left(s) ==> p.address != x.arr)
  }

  predicate Discarded(s: Session, x: SessionStep) { x.ReapStale? ==> !Handled(s, x.p) }

  ghost predicate SessionInv(s: Session) {
    && EnvOk(s.e) && KernelData(s.e) && Inv(s.e, s.w)
    && s.context == s.residue + (if s.w.t.Live() then Filled(s.e, s.arr) else {})
    && (s.w.t.Live() ==> s.residue !! Slots(|s.e.layout|, s.arr))
    && s.submissions == s.reports + (if s.w.t.Live() then 1 else 0)
  }

  predicate Apart(s: Session) {
    && (forall p :: p in s.stale ==> !InFilled(s.e, s.arr, p.address))
    && (forall p :: p in s.stale + Left(s) ==> p.address !in s.residue)
  }

  lemma StartLive(e: Env, w: World)
    requires EnvOk(e) && Init(e, w)
    ensures Inv(e, w) && w.t.Live() && w.deliveries == []
  {
    InitHolds(e, w);
    hide Pending, InPlace, Received, Handed, FailureKept, ShortRefusalKept, Truthful;
  }

  lemma DeliveredIffDone(e: Env, w: World)
    requires EnvOk(e) && Inv(e, w)
    ensures |w.deliveries| == if w.t.Live() then 0 else 1
  {
    hide Pending, InPlace, Received, Handed, FailureKept, ShortRefusalKept, Truthful, NormalOrder;
  }

  // A transfer that libusb has let go of does not come back to life without a submission.
  lemma StaysDone(e: Env, w: World, k: Step, w': World)
    requires EnvOk(e) && Next(e, w, k, w') && !w.t.Live()
    ensures !w'.t.Live()
  {
  }

  lemma OwnKeeps(s: Session, k: Step, s': Session)
    requires SessionInv(s) && SessionNext(true, s, Own(k), s')
    ensures SessionInv(s') && (Apart(s) ==> Apart(s'))
  {
    NextKeeps(s.e, s.w, k, s'.w);
    DeliveredIffDone(s.e, s.w);
    DeliveredIffDone(s.e, s'.w);
    assert Filled(s.e, s.arr) <= Slots(|s.e.layout|, s.arr);
    if !s.w.t.Live() { StaysDone(s.e, s.w, k, s'.w); }
    OwnLeaves(s.e, s.w, k, s'.w);
    hide Inv, Next, EnvOk, KernelData, Filled, Slots;
    assert Left(s') <= Left(s);
  }

  lemma OwnLeaves(e: Env, w: World, k: Step, w': World)
    requires EnvOk(e) && Next(e, w, k, w')
    ensures w.done <= w'.done && w.dropped <= w'.dropped
  {
  }

  lemma ResubmitKeeps(s: Session, e: Env, w: World, arr: nat, s': Session)
    requires SessionInv(s) && SessionNext(true, s, Resubmit(e, w, arr), s')
    ensures SessionInv(s') && (Apart(s) && Fresh(s, Resubmit(e, w, arr)) ==> Apart(s'))
  {
    StartLive(e, w);
    LeftInArray(s');
    hide Inv, Init, EnvOk, KernelData, Filled, Slots, Left, InFilled;
    assert s.residue - Slots(|e.layout|, arr) + Filled(e, arr) == s'.context;
  }

  lemma LeftInArray(s: Session)
    requires EnvOk(s.e)
    ensures forall p :: p in Left(s) ==> p.address in Slots(|s.e.layout|, s.arr)
  {
  }

  lemma RefusedKeeps(s: Session, n: nat, arr: nat, s': Session)
    requires SessionInv(s) && SessionNext(true, s, RefusedFirst(n, arr), s')
    ensures SessionInv(s') && (Apart(s) && Fresh(s, RefusedFirst(n, arr)) ==> Apart(s'))
  {
    assert Left(s') == Left(s);
    hide Inv, EnvOk, KernelData, Filled, Slots, Left, InFilled;
    assert s'.context == s'.residue;
  }

  lemma SessionNextKeeps(s: Session, x: SessionStep, s': Session)
    requires SessionInv(s) && SessionNext(true, s, x, s') && Discarded(s, x)
    ensures SessionInv(s') && (Apart(s) && Fresh(s, x) ==> Apart(s'))
  {
    match x {
      case Own(k) => OwnKeeps(s, k, s');
      case ReapStale(p) => hide Inv, Filled;
      case Resubmit(e, w, arr) => ResubmitKeeps(s, e, w, arr, s');
      case RefusedFirst(n, arr) => RefusedKeeps(s, n, arr, s');
    }
  }

  lemma {:induction false} SessionKeeps(ss: seq<Session>, xs: seq<SessionStep>, n: nat)
    requires SessionRun(true, ss, xs) && n < |ss|
    requires forall i :: 0 <= i < n ==> Discarded(ss[i], xs[i])
    ensures SessionInv(ss[n])
  {
    hide Inv, Init, EnvOk, KernelData, Filled, SessionNext, Discarded;
    if n == 0 {
      StartLive(ss[0].e, ss[0].w);
    } else {
      SessionKeeps(ss, xs, n - 1);
      hide SessionInv;
      SessionNextKeeps(ss[n - 1], xs[n - 1], ss[n]);
    }
  }

  // As long as no stale URB has been taken for one of the transfer's, one is exactly if the transfer is
  // in flight again and the URB lies in a slot that this submission got to, that of a URB the kernel
  // took or of the one it refused, or in the slot of a first URB whose refusal has ended a submission.
  lemma StaleHandledIff(ss: seq<Session>, xs: seq<SessionStep>, n: nat, p: Ptr)
    requires SessionRun(true, ss, xs) && n < |ss| && p in ss[n].stale
    requires forall i :: 0 <= i < n ==> Discarded(ss[i], xs[i])
    ensures Handled(ss[n], p) <==>
            ss[n].w.t.Live() && (InFilled(ss[n].e, ss[n].arr, p.address) || p.address in ss[n].residue)
  {
    SessionKeeps(ss, xs, n);
  }

  lemma ReapedIsStale(s: Session, x: SessionStep, s': Session)
    requires EnvOk(s.e) && SessionNext(true, s, x, s') && x.ReapStale?
    ensures x.p in s.stale
  {
  }

  // So if submissions never get to such a slot, none ever is.
  lemma {:induction false} FreshIsDiscarded(ss: seq<Session>, xs: seq<SessionStep>, n: nat)
    requires SessionRun(true, ss, xs) && n < |ss| && forall i :: 0 <= i < n ==> Fresh(ss[i], xs[i])
    ensures Apart(ss[n]) && forall i :: 0 <= i < n ==> Discarded(ss[i], xs[i])
  {
    hide Inv, Init, EnvOk, KernelData, Filled, SessionNext;
    if n > 0 {
      FreshIsDiscarded(ss, xs, n - 1);
      SessionKeeps(ss, xs, n - 1);
      if xs[n - 1].ReapStale? {
        ReapedIsStale(ss[n - 1], xs[n - 1], ss[n]);
        StaleHandledIff(ss, xs, n - 1, xs[n - 1].p);
      }
      SessionNextKeeps(ss[n - 1], xs[n - 1], ss[n]);
    }
  }

  // Then every submission keeps the promises of a single one: what it hands over is the data of its
  // own URBs, and there is one report for each submission, when that one is over.
  lemma EverySubmissionKept(ss: seq<Session>, xs: seq<SessionStep>, n: nat)
    requires SessionRun(true, ss, xs) && n < |ss| && forall i :: 0 <= i < n ==> Fresh(ss[i], xs[i])
    ensures EnvOk(ss[n].e)
    ensures var s := ss[n];
            forall d :: d in s.w.deliveries ==>
              && d.transferred == DataLength(s.e.outs, s.w.done, |s.e.outs|) <= s.e.length
              && d.bytes == Gather(s.e.outs, s.w.done, |s.e.outs|)
    ensures ss[n].reports == ss[n].submissions - if ss[n].w.t.Live() then 1 else 0
    ensures Inv(ss[n].e, ss[n].w)
  {
    FreshIsDiscarded(ss, xs, n);
    SessionKeeps(ss, xs, n);
    var s := ss[n];
    GatherLength(s.e.outs, s.w.done, |s.e.outs|);
    hide Counting, NormalOrder, Pending, InPlace, FailureKept, ShortRefusalKept, Truthful, Gather, DataLength, Filled;
  }

  // ---------------------------------------------------------------- two runs

  // The transfer after a disconnect.
  function Gone(w: World): World
    requires w.t.transferred <= |w.t.buffer|
  {
    w.(t := w.t.(urbs := []), deliveries := w.deliveries + [Deliver(w.t, CompletionReport(NO_DEVICE), true)])
  }

  lemma StartFits(e: Env, w: World)
    requires EnvOk(e) && Init(e, w)
    ensures w.t.transferred <= |w.t.buffer| && w.done == {} && w.dropped == {} && 1 <= e.submitted
    ensures Next(e, w, Disconnect, Gone(w)) && !Gone(w).t.Live()
  {
    StartLive(e, w);
    hide Inv;
  }

  function First(e: Env, w: World): Session { Session(e, w, 0, Filled(e, 0), {}, 1, {}, 0) }

  function Second(zeroing: bool, e: Env, w: World): Session
    requires w.t.transferred <= |w.t.buffer|
  {
    Session(e, Gone(w), 0, if zeroing then Filled(e, 0) - Slots(|e.layout|, 0) else Filled(e, 0), {}, 1, {}, 1)
  }

  function Third(zeroing: bool, e: Env, w: World, arr: nat): Session
    requires w.t.transferred <= |w.t.buffer|
  {
    var s := Second(zeroing, e, w);
    Session(e, w, arr, s.context - Slots(|e.layout|, arr) + Filled(e, arr), {} + Left(s), 2, {} - Slots(|e.layout|, arr), 1)
  }

  lemma LeftHas(s: Session, i: nat)
    requires i < s.e.submitted && i !in s.w.done && i !in s.w.dropped
    ensures Ptr(s.submissions, s.arr + i) in Left(s)
    ensures forall p :: p in Left(s) ==> p.address < s.arr + s.e.submitted
  {
  }

  // From any submission: a disconnect, and a second submission like the first at address arr.
  lemma SubmittedTwice(zeroing: bool, e: Env, w: World, arr: nat)
    requires EnvOk(e) && KernelData(e) && Init(e, w)
    ensures w.t.transferred <= |w.t.buffer| && w.t.Live()
    ensures SessionRun(zeroing, [First(e, w), Second(zeroing, e, w), Third(zeroing, e, w, arr)],
                       [Own(Disconnect), Resubmit(e, w, arr)])
    ensures Ptr(1, 0) in Left(Second(zeroing, e, w))
    ensures forall p :: p in Left(Second(zeroing, e, w)) ==> p.address < e.submitted <= |e.layout|
  {
    StartLive(e, w);
    StartFits(e, w);
    assert 1 <= e.submitted <= |e.layout|;
    hide Inv, Init, EnvOk, KernelData, Filled, Slots, Next;
    LeftHas(Second(zeroing, e, w), 0);
    hide Left;
    assert SessionNext(zeroing, First(e, w), Own(Disconnect), Second(zeroing, e, w));
    assert SessionNext(zeroing, Second(zeroing, e, w), Resubmit(e, w, arr), Third(zeroing, e, w, arr));
  }

  // Without the zeroing the guards are worth nothing: with the second array apart from the first, the
  // first URB of the first is taken for one of the second.
  lemma UnzeroedIsHandled(e: Env, w: World) returns (ss: seq<Session>, xs: seq<SessionStep>)
    requires EnvOk(e) && KernelData(e) && Init(e, w)
    ensures SessionRun(false, ss, xs) && |xs| == 2 && Fresh(ss[0], xs[0]) && Fresh(ss[1], xs[1])
    ensures Ptr(1, 0) in ss[2].stale && Handled(ss[2], Ptr(1, 0))
  {
    var arr := |e.layout|;
    SubmittedTwice(false, e, w, arr);
    assert 0 in Filled(e, 0) && 0 !in Slots(|e.layout|, arr);
    hide SessionRun, Filled, Slots, Init, KernelData;
    ss := [First(e, w), Second(false, e, w), Third(false, e, w, arr)];
    xs := [Own(Disconnect), Resubmit(e, w, arr)];
  }

  // With it, it is if the allocator hands out the same memory again.
  lemma ReusedIsHandled(e: Env, w: World) returns (ss: seq<Session>, xs: seq<SessionStep>)
    requires EnvOk(e) && KernelData(e) && Init(e, w)
    ensures SessionRun(true, ss, xs) && |xs| == 2 && ss[2].arr == ss[1].arr
    ensures Ptr(1, 0) in ss[2].stale && Handled(ss[2], Ptr(1, 0))
  {
    SubmittedTwice(true, e, w, 0);
    assert 0 in Filled(e, 0);
    hide SessionRun, Filled, Slots, Init, KernelData;
    ss := [First(e, w), Second(true, e, w), Third(true, e, w, 0)];
    xs := [Own(Disconnect), Resubmit(e, w, 0)];
  }

  // With it, and the second array apart from the first, it still is if a submission in between lies
  // where the first did and ends with its first URB, whose usercontext is not zeroed.
  lemma RefusedIsHandled(e: Env, w: World) returns (ss: seq<Session>, xs: seq<SessionStep>)
    requires EnvOk(e) && KernelData(e) && Init(e, w)
    ensures SessionRun(true, ss, xs) && |xs| == 3 && xs[1].RefusedFirst? && Fresh(ss[0], xs[0]) && Fresh(ss[2], xs[2])
    ensures Ptr(1, 0) in ss[3].stale && Handled(ss[3], Ptr(1, 0))
  {
    var n := |e.layout|;
    SubmittedTwice(true, e, w, n);
    StartFits(e, w);
    var s1 := Second(true, e, w);
    var s2 := s1.(context := s1.context - Slots(n, 0) + {0}, residue := {} - Slots(n, 0) + {0});
    assert Left(s2) == Left(s1);
    var s3 := Session(e, w, n, s2.context - Slots(n, n) + Filled(e, n), {} + Left(s2), 2, s2.residue - Slots(n, n), 1);
    xs := [Own(Disconnect), RefusedFirst(n, 0), Resubmit(e, w, n)];
    assert 0 !in Slots(n, n);
    hide Init, KernelData, Filled, Slots, Left, EnvOk, Inv, Next;
    ss := [First(e, w), s1, s2, s3];
    var tt := [First(e, w), s1, Third(true, e, w, n)];
    assert SessionNext(true, tt[0], Own(Disconnect), tt[1]);
    assert SessionNext(true, s1, RefusedFirst(n, 0), s2);
    assert SessionNext(true, s2, Resubmit(e, w, n), s3);
  }
}
