// The register cache of the R82xx tuner driver (rtl-sdr/src/tuner_r82xx.c): writes that change nothing
// are left out, the others are cut into messages of limited length, and masked writes take the old
// bits from the cache instead of the chip.

module TunerCache {
  import opened Wrappers
  import opened RegisterBits

  const START := 5           // REG_SHADOW_START
  const NUM_REGS := 30
  const FILE := 256          // registers the 8-bit address reaches
  const MESSAGE := 7         // max_i2c_msg_len - 1, the register address being the first byte

  // The cache, and the registers of the chip.
  datatype State = State(regs: seq<Byte>, chip: seq<Byte>)

  predicate Sane(s: State) { |s.regs| == NUM_REGS && |s.chip| == FILE }

  predicate Agree(s: State) { Sane(s) && s.regs == s.chip[START..START + NUM_REGS] }

  const INIT: seq<Byte> := [
    0x83, 0x32, 0x75, 0xc0, 0x40, 0xd6, 0x6c, 0xf5, 0x63, 0x75, 0x68, 0x6c, 0x83, 0x80, 0x00,
    0x0f, 0x00, 0xc0, 0x30, 0x48, 0xcc, 0x60, 0x00, 0x54, 0xae, 0x4a, 0xc0, 0x00, 0x00, 0x00]

  const ZEROS: seq<Byte> := [
    0, 0, 0, 0, 0, 0, 0, 0, 0, 0, 0, 0, 0, 0, 0, 0, 0, 0, 0, 0, 0, 0, 0, 0, 0, 0, 0, 0, 0, 0]

  // ---------------------------------------------------------------- the driver's functions

  // shadow_store: the part of the write that the cache covers
  function ShadowStore(regs: seq<Byte>, reg: nat, val: seq<Byte>): (r: seq<Byte>)
    requires |regs| == NUM_REGS
    ensures |r| == NUM_REGS
  {
    if reg >= START then StoreAt(regs, reg - START, val)
    else if |val| <= START - reg then regs
    else StoreAt(regs, 0, val[START - reg..])
  }

  function StoreAt(regs: seq<Byte>, at: nat, val: seq<Byte>): (r: seq<Byte>)
    requires |regs| == NUM_REGS
    ensures |r| == NUM_REGS
  {
    if at >= NUM_REGS then regs
    else if |val| > NUM_REGS - at then Overwrite(regs, at, val[..NUM_REGS - at])
    else Overwrite(regs, at, val)
  }

  // shadow_equal: whether the write lies in the cache and would change nothing
  predicate ShadowEqual(regs: seq<Byte>, reg: nat, val: seq<Byte>)
    requires |regs| == NUM_REGS
  {
    reg >= START && |val| <= NUM_REGS - (reg - START) && regs[reg - START..reg - START + |val|] == val
  }

  datatype Sent = Sent(chip: seq<Byte>, ok: bool)

  datatype Written = Written(state: State, ok: bool)

  // The messages of one write, the first acks of which arrive. A message that is not acknowledged
  // changes nothing and ends the write.
  function Messages(chip: seq<Byte>, reg: nat, val: seq<Byte>, acks: nat): (r: Sent)
    requires reg + |val| <= |chip|
    ensures |r.chip| == |chip|
    decreases |val|
  {
    if acks == 0 then Sent(chip, false)
    else if |val| <= MESSAGE then Sent(Overwrite(chip, reg, val), true)
    else Messages(Overwrite(chip, reg, val[..MESSAGE]), reg + MESSAGE, val[MESSAGE..], acks - 1)
  }

  // r82xx_write; true for success
  function Write(s: State, reg: nat, val: seq<Byte>, acks: nat): (r: Written)
    requires Sane(s) && reg + |val| <= FILE
    ensures Sane(r.state)
  {
    if ShadowEqual(s.regs, reg, val) then Written(s, true)
    else
      var sent := Messages(s.chip, reg, val, acks);
      Written(State(ShadowStore(s.regs, reg, val), sent.chip), sent.ok)
  }

  // r82xx_write_reg_mask; registers outside the cache are refused
  function WriteMask(s: State, reg: nat, val: Byte, mask: Byte, acks: nat): (r: Written)
    requires Sane(s) && reg < FILE
    ensures Sane(r.state)
  {
    if START <= reg < START + NUM_REGS then Write(s, reg, [Masked(s.regs[reg - START], val, mask)], acks)
    else Written(s, false)
  }

  // r82xx_init as far as the cache goes: it is cleared, all registers are written, and
  // r82xx_set_tv_standard sets the cache once more without looking at the outcome.
  function Initialise(s: State, acks: nat): (r: State)
    requires Sane(s)
    ensures Sane(r)
  {
    State(INIT, Write(State(ZEROS, s.chip), START, INIT, acks).state.chip)
  }

  // ---------------------------------------------------------------- cutting a write up

  // The number of messages of a write; there is always one.
  function Count(n: nat): nat { if n <= MESSAGE then 1 else 1 + Count(n - MESSAGE) }

  lemma PutTwice(chip: seq<Byte>, reg: nat, a: seq<Byte>, b: seq<Byte>)
    requires reg + |a| + |b| <= |chip|
    ensures Overwrite(Overwrite(chip, reg, a), reg + |a|, b) == Overwrite(chip, reg, a + b)
  {
  }

  // The data of the messages a write goes out in.
  function Chunks(val: seq<Byte>): seq<seq<Byte>>
    decreases |val|
  {
    if |val| <= MESSAGE then [val] else [val[..MESSAGE]] + Chunks(val[MESSAGE..])
  }

  function Joined(cs: seq<seq<Byte>>): seq<Byte> { if cs == [] then [] else cs[0] + Joined(cs[1..]) }

  // One message after the other, as many as are acknowledged.
  function SendAll(chip: seq<Byte>, reg: nat, cs: seq<seq<Byte>>, acks: nat): Sent
    requires reg + |Joined(cs)| <= |chip|
    decreases |cs|
  {
    if cs == [] then Sent(chip, true)
    else if acks == 0 then Sent(chip, false)
    else SendAll(Overwrite(chip, reg, cs[0]), reg + |cs[0]|, cs[1..], acks - 1)
  }

  // A write of n bytes is at least one message, and goes out in messages of seven bytes, but for the
  // last: eight bytes with the register address, the most that r82xx_write sends at once.
  lemma {:induction false} ChunksAreSeven(val: seq<Byte>)
    ensures var cs := Chunks(val);
            && Joined(cs) == val && |cs| == Count(|val|) == (if val == [] then 1 else (|val| + 6) / 7)
            && (forall i :: 0 <= i < |cs| - 1 ==> |cs[i]| == 7) && |cs[|cs| - 1]| <= 7
    decreases |val|
  {
    if |val| > MESSAGE {
      var a, b := val[..MESSAGE], val[MESSAGE..];
      ChunksAreSeven(b);
      assert ([a] + Chunks(b))[1..] == Chunks(b) && a + b == val;
    } else {
      assert [val][1..] == [] && Joined([]) == [] && val + [] == val;
    }
  }

  lemma {:induction false} MessagesAreChunks(chip: seq<Byte>, reg: nat, val: seq<Byte>, acks: nat)
    requires reg + |val| <= |chip|
    ensures Joined(Chunks(val)) == val && Messages(chip, reg, val, acks) == SendAll(chip, reg, Chunks(val), acks)
    decreases |val|
  {
    ChunksAreSeven(val);
    if |val| > MESSAGE {
      var a, b := val[..MESSAGE], val[MESSAGE..];
      assert ([a] + Chunks(b))[1..] == Chunks(b);
      if acks > 0 { MessagesAreChunks(Overwrite(chip, reg, a), reg + MESSAGE, b, acks - 1); }
    } else {
      assert [val][1..] == [];
    }
    hide Overwrite;
  }

  // The registers the cache covers: 0x05 to 0x22.
  lemma CachedRegisters(reg: nat)
    ensures Cached(reg) <==> 0x05 <= reg <= 0x22
  {
  }

  // If every message arrives, cutting the write up makes no difference.
  lemma {:induction false} MessagesAddUp(chip: seq<Byte>, reg: nat, val: seq<Byte>, acks: nat)
    requires reg + |val| <= |chip| && acks >= Count(|val|)
    ensures Messages(chip, reg, val, acks) == Sent(Overwrite(chip, reg, val), true)
    decreases |val|
  {
    if |val| > MESSAGE {
      var a, b := val[..MESSAGE], val[MESSAGE..];
      MessagesAddUp(Overwrite(chip, reg, a), reg + MESSAGE, b, acks - 1);
      PutTwice(chip, reg, a, b);
      assert a + b == val;
    }
  }

  // The cache stores exactly what the chip's cached registers will hold.
  lemma StoreFollowsPut(regs: seq<Byte>, chip: seq<Byte>, reg: nat, val: seq<Byte>)
    requires |chip| == FILE && |regs| == NUM_REGS && regs == chip[START..START + NUM_REGS] && reg + |val| <= FILE
    ensures ShadowStore(regs, reg, val) == Overwrite(chip, reg, val)[START..START + NUM_REGS]
  {
    forall i | 0 <= i < NUM_REGS ensures ShadowStore(regs, reg, val)[i] == Overwrite(chip, reg, val)[START + i] {
      assert regs[i] == chip[START + i];
    }
  }

  // A write that the cache holds back would not have changed the chip.
  lemma HeldBackChangesNothing(regs: seq<Byte>, chip: seq<Byte>, reg: nat, val: seq<Byte>)
    requires |chip| == FILE && |regs| == NUM_REGS && regs == chip[START..START + NUM_REGS] && reg + |val| <= FILE
    requires ShadowEqual(regs, reg, val)
    ensures Overwrite(chip, reg, val) == chip
  {
    var k := reg - START;
    forall i | 0 <= i < |val| ensures val[i] == chip[reg + i] {
      assert regs[k..k + |val|][i] == regs[k + i];
    }
  }

  // ---------------------------------------------------------------- over whole sequences of writes

  datatype Op = Init | Full(reg: nat, val: Byte) | Block(reg: nat, vals: seq<Byte>) | Mask(reg: nat, val: Byte, mask: Byte)

  predicate InRange(op: Op) {
    match op
    case Init => true
    case Full(reg, _) => reg < FILE
    case Block(reg, vals) => reg + |vals| <= FILE
    case Mask(reg, _, _) => reg < FILE
  }

  const ALL := 257   // more messages than any write has

  // What the driver does when every message arrives.
  function Step(s: State, op: Op): (r: State)
    requires Sane(s) && InRange(op)
    ensures Sane(r)
  {
    match op
    case Init => Initialise(s, ALL)
    case Full(reg, val) => Write(s, reg, [val], ALL).state
    case Block(reg, vals) => Write(s, reg, vals, ALL).state
    case Mask(reg, val, mask) => WriteMask(s, reg, val, mask, ALL).state
  }

  // What a driver without a cache would do: every write goes to the chip whole, and masked writes
  // read the chip first.
  function DirectStep(chip: seq<Byte>, op: Op): (r: seq<Byte>)
    requires |chip| == FILE && InRange(op)
    ensures |r| == FILE
  {
    match op
    case Init => Overwrite(chip, START, INIT)
    case Full(reg, val) => Overwrite(chip, reg, [val])
    case Block(reg, vals) => Overwrite(chip, reg, vals)
    case Mask(reg, val, mask) =>
      if START <= reg < START + NUM_REGS then Overwrite(chip, reg, [Masked(chip[reg], val, mask)]) else chip
  }

  function Run(s: State, ops: seq<Op>): (r: State)
    requires Sane(s) && forall op :: op in ops ==> InRange(op)
    ensures Sane(r)
    decreases |ops|
  {
    if ops == [] then s else Run(Step(s, ops[0]), ops[1..])
  }

  function DirectRun(chip: seq<Byte>, ops: seq<Op>): (r: seq<Byte>)
    requires |chip| == FILE && forall op :: op in ops ==> InRange(op)
    ensures |r| == FILE
    decreases |ops|
  {
    if ops == [] then chip else DirectRun(DirectStep(chip, ops[0]), ops[1..])
  }

  lemma {:induction false} CountBound(n: nat)
    ensures Count(n) <= n + 1
  {
    if n > MESSAGE { CountBound(n - MESSAGE); }
  }

  lemma WriteIsDirect(s: State, reg: nat, val: seq<Byte>)
    requires Agree(s) && reg + |val| <= FILE
    ensures Write(s, reg, val, ALL).ok
    ensures Write(s, reg, val, ALL).state.chip == Overwrite(s.chip, reg, val)
    ensures Agree(Write(s, reg, val, ALL).state)
  {
    if ShadowEqual(s.regs, reg, val) {
      HeldBackChangesNothing(s.regs, s.chip, reg, val);
    } else {
      CountBound(|val|);
      MessagesAddUp(s.chip, reg, val, ALL);
      StoreFollowsPut(s.regs, s.chip, reg, val);
    }
  }

  lemma InitIsDirect(s: State)
    requires Sane(s)
    ensures Initialise(s, ALL).chip == Overwrite(s.chip, START, INIT) && Agree(Initialise(s, ALL))
  {
    CountBound(NUM_REGS);
    MessagesAddUp(s.chip, START, INIT, ALL);
    assert ZEROS[0] != INIT[0] && ZEROS[0..NUM_REGS] == ZEROS;
    assert !ShadowEqual(ZEROS, START, INIT);
    assert Overwrite(s.chip, START, INIT)[START..START + NUM_REGS] == INIT;
  }

  // What registers 0x05 to 0x22 hold after an initialisation whose messages all arrive.
  lemma InitialValues(s: State)
    requires Sane(s)
    ensures Initialise(s, ALL).chip[0x05..0x23] == [
              0x83, 0x32, 0x75, 0xc0, 0x40, 0xd6, 0x6c, 0xf5, 0x63, 0x75,    // 0x05 to 0x0e
              0x68, 0x6c, 0x83, 0x80, 0x00, 0x0f, 0x00, 0xc0, 0x30, 0x48,    // 0x0f to 0x18
              0xcc, 0x60, 0x00, 0x54, 0xae, 0x4a, 0xc0, 0x00, 0x00, 0x00]    // 0x19 to 0x22
  {
    InitIsDirect(s);
    assert Overwrite(s.chip, START, INIT)[START..START + NUM_REGS] == INIT;
  }

  lemma StepIsDirect(s: State, op: Op)
    requires InRange(op) && if op.Init? then Sane(s) else Agree(s)
    ensures Agree(Step(s, op)) && Step(s, op).chip == DirectStep(s.chip, op)
  {
    hide Write, Initialise, Overwrite;
    match op
    case Init => InitIsDirect(s);
    case Full(reg, val) => WriteIsDirect(s, reg, [val]);
    case Block(reg, vals) => WriteIsDirect(s, reg, vals);
    case Mask(reg, val, mask) =>
      if START <= reg < START + NUM_REGS { WriteIsDirect(s, reg, [Masked(s.regs[reg - START], val, mask)]); }
  }

  // From initialisation on, whatever is written: the cache agrees with the chip after every step,
  // and the chip is as if every write had gone out whole and no cache had been there.
  lemma {:induction false} CacheIsInvisible(s: State, ops: seq<Op>)
    requires Agree(s) && forall op :: op in ops ==> InRange(op)
    ensures Agree(Run(s, ops)) && Run(s, ops).chip == DirectRun(s.chip, ops)
    decreases |ops|
  {
    hide Step, DirectStep;
    if ops != [] {
      assert ops[0] in ops;
      StepIsDirect(s, ops[0]);
      CacheIsInvisible(Step(s, ops[0]), ops[1..]);
    }
  }

  lemma CacheIsInvisibleFromInit(s: State, ops: seq<Op>)
    requires Sane(s) && ops != [] && ops[0].Init? && forall op :: op in ops ==> InRange(op)
    ensures Agree(Run(s, ops)) && Run(s, ops).chip == DirectRun(s.chip, ops)
  {
    hide Step, DirectStep;
    StepIsDirect(s, ops[0]);
    CacheIsInvisible(Step(s, ops[0]), ops[1..]);
  }

  // ---------------------------------------------------------------- writes that fail

  // How far a write got.
  function Arrived(n: nat, acks: nat): (k: nat)
    ensures k <= n
  {
    if acks == 0 then 0 else if n <= MESSAGE then n else MESSAGE + Arrived(n - MESSAGE, acks - 1)
  }

  lemma {:induction false} MessagesArrive(chip: seq<Byte>, reg: nat, val: seq<Byte>, acks: nat)
    requires reg + |val| <= |chip|
    ensures Messages(chip, reg, val, acks).chip == Overwrite(chip, reg, val[..Arrived(|val|, acks)])
    ensures Messages(chip, reg, val, acks).ok <==> acks >= Count(|val|)
    decreases |val|
  {
    if acks > 0 && |val| > MESSAGE {
      var a, b := val[..MESSAGE], val[MESSAGE..];
      MessagesArrive(Overwrite(chip, reg, a), reg + MESSAGE, b, acks - 1);
      PutTwice(chip, reg, a, b[..Arrived(|b|, acks - 1)]);
      assert a + b[..Arrived(|b|, acks - 1)] == val[..Arrived(|val|, acks)];
    } else if acks > 0 {
      assert val[..|val|] == val;
    } else {
      assert Overwrite(chip, reg, []) == chip;
    }
  }

  predicate Cached(reg: nat) { START <= reg < START + NUM_REGS }

  // Whether the whole write lies in the cache.
  predicate InCache(reg: nat, n: nat) { START <= reg && reg + n <= START + NUM_REGS }

  // After a write that broke off, wherever it lies: the cache holds all of it that it covers, and cache
  // and chip agree if and only if the chip already held what did not arrive of that.
  lemma FailedWriteAgreesIff(s: State, reg: nat, val: seq<Byte>, acks: nat)
    requires Agree(s) && reg + |val| <= FILE && !Write(s, reg, val, acks).ok
    ensures var s' := Write(s, reg, val, acks).state;
            var k := Arrived(|val|, acks);
            && (forall i :: 0 <= i < |val| && Cached(reg + i) ==> s'.regs[reg + i - START] == val[i])
            && (Agree(s') <==> forall i :: k <= i < |val| && Cached(reg + i) ==> val[i] == s.chip[reg + i])
  {
    var s' := Write(s, reg, val, acks).state;
    var k := Arrived(|val|, acks);
    BrokenOff(s, reg, val, acks);
    var part, whole := Overwrite(s.chip, reg, val[..k]), Overwrite(s.chip, reg, val);
    hide Write, Messages;
    forall i | 0 <= i < |val| && Cached(reg + i) ensures s'.regs[reg + i - START] == val[i] {
      assert whole[reg + i] == val[i];
    }
    PutsDiffer(s.chip, reg, val, k);
    hide Overwrite;
    assert Agree(s') <==> part[START..START + NUM_REGS] == whole[START..START + NUM_REGS];
  }

  lemma BrokenOff(s: State, reg: nat, val: seq<Byte>, acks: nat)
    requires Agree(s) && reg + |val| <= FILE && !Write(s, reg, val, acks).ok
    ensures var s' := Write(s, reg, val, acks).state;
            && s'.chip == Overwrite(s.chip, reg, val[..Arrived(|val|, acks)])
            && s'.regs == Overwrite(s.chip, reg, val)[START..START + NUM_REGS]
            && acks < Count(|val|)
  {
    MessagesArrive(s.chip, reg, val, acks);
    StoreFollowsPut(s.regs, s.chip, reg, val);
    hide Messages, ShadowStore, Overwrite;
  }

  lemma PutsDiffer(chip: seq<Byte>, reg: nat, val: seq<Byte>, k: nat)
    requires |chip| == FILE && reg + |val| <= FILE && k <= |val|
    ensures Overwrite(chip, reg, val[..k])[START..START + NUM_REGS] == Overwrite(chip, reg, val)[START..START + NUM_REGS]
            <==> forall i :: k <= i < |val| && Cached(reg + i) ==> val[i] == chip[reg + i]
  {
    var part, whole := Overwrite(chip, reg, val[..k]), Overwrite(chip, reg, val);
    if part[START..START + NUM_REGS] == whole[START..START + NUM_REGS] {
      forall i | k <= i < |val| && Cached(reg + i) ensures val[i] == chip[reg + i] {
        var j := reg + i;
        assert part[j] == part[START..START + NUM_REGS][j - START] == whole[START..START + NUM_REGS][j - START] == whole[j];
        assert part[j] == chip[j] && whole[j] == val[i];
      }
    }
    if forall i :: k <= i < |val| && Cached(reg + i) ==> val[i] == chip[reg + i] {
      forall j | START <= j < START + NUM_REGS ensures part[j] == whole[j] {
        if reg + k <= j < reg + |val| {
          assert Cached(reg + (j - reg)) && val[j - reg] == chip[j];
        }
      }
    }
  }

  lemma PutOver(chip: seq<Byte>, reg: nat, val: seq<Byte>, k: nat)
    requires reg + |val| <= |chip| && k <= |val|
    ensures Overwrite(Overwrite(chip, reg, val[..k]), reg, val) == Overwrite(chip, reg, val)
    ensures Overwrite(Overwrite(chip, reg, val), reg, val) == Overwrite(chip, reg, val)
  {
  }

  lemma WindowHolds(chip: seq<Byte>, reg: nat, val: seq<Byte>)
    requires |chip| == FILE && InCache(reg, |val|)
    ensures ShadowEqual(Overwrite(chip, reg, val)[START..START + NUM_REGS], reg, val)
  {
    var whole := Overwrite(chip, reg, val);
    assert whole[START..START + NUM_REGS][reg - START..reg - START + |val|] == whole[reg..reg + |val|] == val;
  }

  // Writing the same again does nothing and reports success if the whole write lies in the cache, so
  // what did not arrive stays wrong. Any other write is sent again, and if it arrives all is well.
  lemma RetryIsHeldBack(s: State, reg: nat, val: seq<Byte>, acks: nat, again: nat)
    requires Agree(s) && reg + |val| <= FILE && !Write(s, reg, val, acks).ok
    ensures var s' := Write(s, reg, val, acks).state;
            var r := Write(s', reg, val, again);
            if InCache(reg, |val|) then r == Written(s', true)
            else (r.ok <==> again >= Count(|val|)) && (r.ok ==> Agree(r.state) && r.state.chip == Overwrite(s.chip, reg, val))
  {
    var s' := Write(s, reg, val, acks).state;
    BrokenOff(s, reg, val, acks);
    hide Agree, Messages, Overwrite, ShadowStore;
    if InCache(reg, |val|) {
      WindowHolds(s.chip, reg, val);
      hide ShadowEqual;
    } else {
      hide Write;
      RetryIsSent(s, s', reg, val, Arrived(|val|, acks), again);
    }
  }

  lemma RetryIsSent(s: State, s': State, reg: nat, val: seq<Byte>, k: nat, again: nat)
    requires Sane(s) && Sane(s') && reg + |val| <= FILE && !InCache(reg, |val|) && k <= |val|
    requires s'.chip == Overwrite(s.chip, reg, val[..k]) && s'.regs == Overwrite(s.chip, reg, val)[START..START + NUM_REGS]
    ensures var r := Write(s', reg, val, again);
            (r.ok <==> again >= Count(|val|)) && (r.ok ==> Agree(r.state) && r.state.chip == Overwrite(s.chip, reg, val))
  {
    var whole := Overwrite(s.chip, reg, val);
    assert !ShadowEqual(s'.regs, reg, val);
    hide Messages, ShadowStore, Overwrite, ShadowEqual;
    MessagesArrive(s'.chip, reg, val, again);
    if again >= Count(|val|) { MessagesAddUp(s'.chip, reg, val, again); }
    PutOver(s.chip, reg, val, k);
    StoreFollowsPut(s'.regs, whole, reg, val);
  }

  // ---------------------------------------------------------------- the driver's functions in place

  // One acknowledged message of what is left of a write, from pos on.
  lemma MessagesStep(chip: seq<Byte>, reg: nat, val: seq<Byte>, pos: nat, size: nat, acks: nat)
    requires pos <= |val| && reg + |val| - pos <= |chip| && acks > 0
    requires size == if |val| - pos > MESSAGE then MESSAGE else |val| - pos
    ensures var put := Overwrite(chip, reg, val[pos..pos + size]);
            Messages(chip, reg, val[pos..], acks)
            == if pos + size < |val| then Messages(put, reg + size, val[pos + size..], acks - 1) else Sent(put, true)
  {
    assert val[pos..][..size] == val[pos..pos + size] && val[pos..][size..] == val[pos + size..];
  }

  lemma NoMessage(chip: seq<Byte>, reg: nat, val: seq<Byte>)
    requires reg + |val| <= |chip|
    ensures Messages(chip, reg, val, 0) == Sent(chip, false)
  {
  }

  lemma PutOneMore(b: seq<Byte>, at: nat, val: seq<Byte>, i: nat)
    requires at + |val| <= |b| && i < |val|
    ensures Overwrite(b, at, val[..i])[at + i := val[i]] == Overwrite(b, at, val[..i + 1])
  {
  }

  lemma StoreNothing(regs: seq<Byte>, reg: nat, val: seq<Byte>)
    requires |regs| == NUM_REGS && |val| <= (if reg < START then START - reg else 0)
    ensures ShadowStore(regs, reg, val) == regs
  {
  }

  class Tuner {
    const regs: array<Byte>    // priv->regs
    var chip: seq<Byte>        // the device

    ghost predicate Valid()
      reads this, regs
    {
      regs.Length == NUM_REGS && |chip| == FILE
    }

    function S(): State
      reads this, regs
    {
      State(regs[..], chip)
    }

    constructor (chip: seq<Byte>)
      requires |chip| == FILE
      ensures Valid() && this.chip == chip && fresh(regs)
    {
      this.chip := chip;
      regs := new Byte[NUM_REGS];
    }

    // memcpy(&priv->regs[at], val, len)
    method CopyIn(at: nat, val: seq<Byte>)
      requires Valid() && at + |val| <= NUM_REGS
      modifies regs
      ensures regs[..] == Overwrite(old(regs[..]), at, val)
    {
      ghost var before := regs[..];
      var i := 0;
      assert Overwrite(before, at, val[..0]) == before;
      hide Overwrite;
      while i < |val|
        invariant 0 <= i <= |val|
        invariant regs[..] == Overwrite(before, at, val[..i])
      {
        PutOneMore(before, at, val, i);
        regs[at + i] := val[i];
        i := i + 1;
      }
      assert val[..|val|] == val;
    }

    // shadow_store
    method StoreShadow(reg: nat, val: seq<Byte>)
      requires Valid()
      modifies regs
      ensures regs[..] == ShadowStore(old(regs[..]), reg, val)
    {
      var r, len, from := reg - START, |val|, 0;
      if r < 0 {
        len, from, r := len + r, -r, 0;
      }
      assert len > 0 ==> ShadowStore(regs[..], reg, val) == StoreAt(regs[..], r, val[from..]);
      if len <= 0 { StoreNothing(regs[..], reg, val); }
      hide ShadowStore;
      if len > 0 {
        if len > NUM_REGS - r { len := NUM_REGS - r; }
        assert 0 < len ==> val[from..][..len] == val[from..from + len];
        if len > 0 { CopyIn(r, val[from..from + len]); }
      }
    }

    // shadow_equal
    method EqualShadow(reg: nat, val: seq<Byte>) returns (equal: bool)
      requires Valid()
      ensures equal == ShadowEqual(regs[..], reg, val)
    {
      var r := reg - START;
      if r < 0 || |val| > NUM_REGS - r { return false; }
      equal := regs[r..r + |val|] == val;
      assert regs[..][r..r + |val|] == regs[r..r + |val|];
    }

    // r82xx_write, of whose messages the first acks are acknowledged
    method WriteBlock(reg: nat, val: seq<Byte>, acks: nat) returns (ok: bool)
      requires Valid() && reg + |val| <= FILE
      modifies this`chip, regs
      ensures Valid() && Written(S(), ok) == Write(old(S()), reg, val, acks)
    {
      var same := EqualShadow(reg, val);
      if same { return true; }
      StoreShadow(reg, val);
      var at, pos, left := reg, 0, acks;
      ok := true;
      var more := true;
      assert val[0..] == val;
      hide Messages, ShadowStore;
      while more
        invariant Valid() && 0 <= pos <= |val| && at == reg + pos && (more ==> ok) && regs[..] == ShadowStore(old(regs[..]), reg, val)
        invariant Messages(old(chip), reg, val, acks) == if more then Messages(chip, at, val[pos..], left) else Sent(chip, ok)
        decreases |val| - pos, more
      {
        var size := if |val| - pos > MESSAGE then MESSAGE else |val| - pos;
        if left == 0 {
          NoMessage(chip, at, val[pos..]);
          ok, more := false, false;
        } else {
          MessagesStep(chip, at, val, pos, size, left);
          chip := Overwrite(chip, at, val[pos..pos + size]);
          at, pos, left := at + size, pos + size, left - 1;
          more := pos < |val|;
        }
      }
    }

    // r82xx_write_reg_mask
    method WriteRegMask(reg: nat, val: Byte, mask: Byte, acks: nat) returns (ok: bool)
      requires Valid() && reg < FILE
      modifies this`chip, regs
      ensures Valid() && Written(S(), ok) == WriteMask(old(S()), reg, val, mask, acks)
      ensures reg < 0x05 || reg > 0x22 ==> !ok && S() == old(S())
    {
      if !(START <= reg < START + NUM_REGS) { return false; }
      var was := regs[reg - START];
      ok := WriteBlock(reg, [Masked(was, val, mask)], acks);
    }

    // the part of r82xx_init that fills the registers
    method InitRegs(acks: nat)
      requires Valid()
      modifies this`chip, regs
      ensures Valid() && S() == Initialise(old(S()), acks)
      ensures acks >= Count(NUM_REGS) ==> Agree(S())
    {
      CopyIn(0, ZEROS);
      assert Overwrite(old(regs[..]), 0, ZEROS) == ZEROS;
      var _ := WriteBlock(START, INIT, acks);
      ghost var before := regs[..];
      CopyIn(0, INIT);
      assert Overwrite(before, 0, INIT) == INIT;
      if acks >= Count(NUM_REGS) {
        MessagesAddUp(old(chip), START, INIT, acks);
        assert ZEROS[0] != INIT[0] && ZEROS[0..NUM_REGS] == ZEROS;
        assert Overwrite(old(chip), START, INIT)[START..START + NUM_REGS] == INIT;
      }
    }
  }
}
