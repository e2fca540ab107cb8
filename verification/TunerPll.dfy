// The synthesiser arithmetic of r82xx_set_pll (rtl-sdr/src/tuner_r82xx.c): which divider it picks, how
// closely the fractional divider hits the wanted frequency, and that the registers say so.

module TunerPll {
  import opened Wrappers
  import opened RegisterBits
  import opened TunerCache

  const VCO_MIN := 1_770_000      // kHz
  const VCO_MAX := 2 * VCO_MIN
  const UINT32 := 0x1_0000_0000

  // The frequency in kHz, rounded; the sum wraps around.
  function FreqKhz(freq: nat): nat { (freq + 500) % UINT32 / 1000 }

  predicate Fits(khz: nat, mixDiv: nat) { VCO_MIN <= khz * mixDiv < VCO_MAX }

  predicate IsDivider(m: nat) { m == 2 || m == 4 || m == 8 || m == 16 || m == 32 || m == 64 }

  // How often it is halved to reach 2.
  function Halvings(m: nat): (n: nat)
    ensures IsDivider(m) ==> n <= 5
  {
    if m <= 2 then 0 else 1 + Halvings(m / 2)
  }

  function Pow2(n: nat): nat { if n == 0 then 1 else 2 * Pow2(n - 1) }

  // The number of a divider is its binary logarithm less one.
  lemma HalvingsAreLog(m: nat)
    requires IsDivider(m)
    ensures m == 2 * Pow2(Halvings(m))
  {
    assert Pow2(1) == 2 && Pow2(2) == 4 && Pow2(3) == 8 && Pow2(4) == 16 && Pow2(5) == 32;
    assert Halvings(4) == 1 && Halvings(8) == 2 && Halvings(16) == 3 && Halvings(32) == 4 && Halvings(64) == 5;
  }

  // For any frequency below the wrap-around the kHz are off by half of one at most.
  lemma KhzIsRounded(freq: nat)
    requires freq < 0x1_0000_0000 - 500
    ensures 1000 * FreqKhz(freq) - 500 <= freq < 1000 * FreqKhz(freq) + 500
  {
  }

  // ---------------------------------------------------------------- the mixer divider

  // The divider search, with the number that goes into the register.
  method FindDivider(khz: nat) returns (mixDiv: nat, divNum: nat)
    ensures (IsDivider(mixDiv) && divNum <= 5) || (mixDiv == 128 && divNum == 0)
    ensures IsDivider(mixDiv) ==> 1_770_000 <= khz * mixDiv < 3_540_000 && mixDiv == 2 * Pow2(divNum)
    ensures IsDivider(mixDiv) ==> divNum == Halvings(mixDiv)
    ensures mixDiv == 128 <==> forall m: nat :: IsDivider(m) ==> !Fits(khz, m)
  {
    mixDiv, divNum := 2, 0;
    while mixDiv <= 64
      invariant IsDivider(mixDiv) || mixDiv == 128
      invariant divNum == 0 && forall m: nat :: IsDivider(m) && m < mixDiv ==> !Fits(khz, m)
      decreases 128 - mixDiv
    {
      if Fits(khz, mixDiv) {
        HalvingsAreLog(mixDiv);
        var divBuf := mixDiv;
        while divBuf > 2
          invariant IsDivider(divBuf) && divNum + Halvings(divBuf) == Halvings(mixDiv) <= 5
        {
          divBuf := divBuf / 2;
          divNum := divNum + 1;
        }
        return;
      }
      mixDiv := mixDiv * 2;
    }
  }

  // At most one divider fits, and one does exactly for frequencies from 27657 to below 1770000 kHz.
  lemma DividerIsUnique(khz: nat, m: nat, n: nat)
    requires IsDivider(m) && IsDivider(n) && Fits(khz, m) && Fits(khz, n)
    ensures m == n
  {
  }

  lemma DividerExistsIff(khz: nat)
    ensures (exists m: nat :: IsDivider(m) && Fits(khz, m)) <==> 27_657 <= khz < VCO_MIN
  {
    if 27_657 <= khz < VCO_MIN {
      var m := if 2 * khz >= VCO_MIN then 2 else if 4 * khz >= VCO_MIN then 4 else if 8 * khz >= VCO_MIN then 8
               else if 16 * khz >= VCO_MIN then 16 else if 32 * khz >= VCO_MIN then 32 else 64;
      assert IsDivider(m) && Fits(khz, m);
    }
  }

  // The register field of the divider after the fine-tune correction: a byte that may wrap around,
  // shifted up and masked.
  function DivField(divNum: nat, fine: nat, vcoPowerRef: nat): (field: nat)
    requires divNum <= 5
    ensures field < 8
  {
    var corrected := if fine > vcoPowerRef then (divNum + 255) % 256 else if fine < vcoPowerRef then divNum + 1 else divNum;
    corrected * 32 % 256 / 32
  }

  // The field holds the corrected number, except that none below zero can be held: dividing by 2
  // with a fine tune above the reference comes out as 7.
  lemma DivFieldIff(divNum: nat, fine: nat, vcoPowerRef: nat)
    requires divNum <= 5
    ensures var wanted := divNum + if fine > vcoPowerRef then -1 else if fine < vcoPowerRef then 1 else 0;
            && (DivField(divNum, fine, vcoPowerRef) == wanted <==> !(divNum == 0 && fine > vcoPowerRef))
            && (divNum == 0 && fine > vcoPowerRef ==> DivField(divNum, fine, vcoPowerRef) == 7)
  {
  }

  // ---------------------------------------------------------------- the fractional divider

  // vco / (2 * ref) in units of 1/65536, rounded.
  function VcoDiv(vco: nat, ref: nat): nat
    requires ref > 0
  {
    (ref + 65536 * vco) / (2 * ref)
  }

  // Half a unit is the most it can be off: ref / 65536 Hz.
  lemma RoundingError(vco: nat, ref: nat)
    requires ref > 0
    ensures var synthesised := 2 * ref * VcoDiv(vco, ref);
            synthesised - 65536 * vco <= ref && 65536 * vco - synthesised <= ref
  {
    DivisionBounds(ref + 65536 * vco, 2 * ref);
  }

  lemma DivisionBounds(n: nat, d: nat)
    requires d > 0
    ensures d * (n / d) <= n < d * (n / d) + d
  {
  }

  // The integer part as the driver keeps it, in a byte, and the fraction.
  function Nint(vcoDiv: nat): nat { vcoDiv / 65536 % 256 }

  function Sdm(vcoDiv: nat): nat { vcoDiv % 65536 }

  // Division of C, towards zero, and bytes that wrap around.
  function Ni(nint: nat): nat { (if nint >= 13 then (nint - 13) / 4 else -((13 - nint) / 4)) % 256 }

  function Si(nint: nat): nat { (nint - 4 * Ni(nint) - 13) % 256 }

  function NintByte(nint: nat): (b: nat)
    ensures b < 256
  {
    (Ni(nint) + Si(nint) * 64) % 256
  }

  // The reading of the chip: six bits of ni, two bits of si.
  function DecodeNint(b: nat): nat { 4 * (b % 64) + b / 64 + 13 }

  // The byte says the integer part exactly from 13 on.
  lemma NintDecodesIff(nint: nat)
    requires nint < 256
    ensures DecodeNint(NintByte(nint)) == nint <==> nint >= 13
  {
    if nint >= 13 {
      NintDecodes(nint - 13);
    } else {
      assert DecodeNint(NintByte(nint)) >= 13;
    }
  }

  lemma NintDecodes(k: nat)
    requires k < 243
    ensures DecodeNint(NintByte(k + 13)) == k + 13
  {
    var ni, si := k / 4, k % 4;
    assert Ni(k + 13) == ni && Si(k + 13) == si;
    assert NintByte(k + 13) == ni + si * 64;
    hide Ni, Si, NintByte;
    assert (ni + si * 64) % 64 == ni && (ni + si * 64) / 64 == si;
  }

  lemma SdmDecodes(sdm: nat)
    requires sdm < 65536
    ensures sdm % 256 + 256 * (sdm / 256) == sdm && sdm / 256 < 256
  {
  }

  // ---------------------------------------------------------------- the range of the synthesiser

  predicate Supported(xtal: nat, vcoPowerRef: nat) {
    (xtal == 28_800_000 && (vcoPowerRef == 1 || vcoPowerRef == 2)) || (xtal == 16_000_000 && vcoPowerRef == 1)
  }

  lemma VcoRange(freq: nat, m: nat)
    requires freq < UINT32 && IsDivider(m) && Fits(FreqKhz(freq), m)
    ensures 1_769_968_000 <= freq * m <= 3_540_030_936
  {
    var khz := FreqKhz(freq);
    assert freq + 500 >= UINT32 ==> khz == 0;
    assert 1000 * khz - 500 <= freq <= 1000 * khz + 499;
  }

  // "No valid PLL" is never reached for a frequency that has a divider, and the integer part is
  // one that the register can say.
  lemma PllIsValid(freq: nat, m: nat, xtal: nat, vcoPowerRef: nat)
    requires freq < UINT32 && IsDivider(m) && Fits(FreqKhz(freq), m) && Supported(xtal, vcoPowerRef)
    ensures var d := VcoDiv(freq * m, xtal);
            13 <= Nint(d) == d / 65536 <= 128 / vcoPowerRef - 1
  {
    VcoRange(freq, m);
  }

  // The VCO runs within crystal / 65536 Hz of what is wanted.
  predicate Accurate(synthesised: nat, vco: nat, xtal: nat) {
    2 * xtal * synthesised - 65536 * vco <= xtal && 65536 * vco - 2 * xtal * synthesised <= xtal
  }

  // With a supported crystal, registers that say the computed divider are accurate.
  lemma SupportedIsAccurate(freq: nat, m: nat, xtal: nat, vcoPowerRef: nat, synthesised: nat)
    requires freq < UINT32 && IsDivider(m) && Fits(FreqKhz(freq), m) && Supported(xtal, vcoPowerRef)
    ensures Nint(VcoDiv(freq * m, xtal)) <= 128 / vcoPowerRef - 1
    ensures (13 <= Nint(VcoDiv(freq * m, xtal)) == VcoDiv(freq * m, xtal) / 65536 ==> synthesised == VcoDiv(freq * m, xtal))
            ==> Accurate(synthesised, freq * m, xtal)
  {
    PllIsValid(freq, m, xtal, vcoPowerRef);
    RoundingError(freq * m, xtal);
  }

  // ---------------------------------------------------------------- r82xx_set_pll

  // The seven bytes of registers 0x10 to 0x16, from those in the cache.
  function PllRegs(was: seq<Byte>, divField: nat, vcoDiv: nat): (r: seq<Byte>)
    requires |was| == 7 && divField < 8
    ensures |r| == 7
  {
    var sdm := Sdm(vcoDiv);
    [Masked(Masked(was[0], 0, 0x10), divField * 32, 0xe0), was[1],
     Masked(was[2], if sdm == 0 then 0x08 else 0x00, 0x08), was[3],
     NintByte(Nint(vcoDiv)), sdm % 256, sdm / 256]
  }

  // What the chip makes of registers 0x14 to 0x16, in units of 1/65536.
  function Synthesised(chip: seq<Byte>): nat
    requires |chip| == FILE
  {
    65536 * DecodeNint(chip[0x14]) + (chip[0x15] as nat) + 256 * (chip[0x16] as nat)
  }

  // Registers 0x14 to 0x16 say the divider that was computed, to the last bit.
  lemma RegistersDecode(chip: seq<Byte>, was: seq<Byte>, divField: nat, d: nat)
    requires |chip| == FILE && |was| == 7 && divField < 8 && chip[0x14..0x17] == PllRegs(was, divField, d)[4..]
    requires 13 <= Nint(d) == d / 65536
    ensures Synthesised(chip) == d
  {
    var r := PllRegs(was, divField, d);
    assert r[4] == NintByte(Nint(d)) && r[5] == Sdm(d) % 256 && r[6] == Sdm(d) / 256;
    hide PllRegs, Masked;
    assert chip[0x14] == chip[0x14..0x17][0] == r[4..][0] == r[4];
    assert chip[0x15] == chip[0x14..0x17][1] == r[4..][1] == r[5];
    assert chip[0x16] == chip[0x14..0x17][2] == r[4..][2] == r[6];
    NintDecodesIff(Nint(d));
    SdmDecodes(Sdm(d));
    hide DecodeNint, NintByte;
  }

  // Only a write whose messages have all arrived reports success.
  lemma {:induction false} SuccessIsWhole(chip: seq<Byte>, reg: nat, val: seq<Byte>, acks: nat)
    requires reg + |val| <= |chip|
    ensures Messages(chip, reg, val, acks).ok <==> acks >= Count(|val|)
    decreases |val|
  {
    if acks > 0 && |val| > MESSAGE {
      SuccessIsWhole(Overwrite(chip, reg, val[..MESSAGE]), reg + MESSAGE, val[MESSAGE..], acks - 1);
    }
  }

  lemma SuccessIsDirect(s: State, reg: nat, val: seq<Byte>, acks: nat)
    requires Agree(s) && reg + |val| <= FILE
    ensures acks >= ALL ==> Write(s, reg, val, acks).ok
    ensures Write(s, reg, val, acks).ok ==> Write(s, reg, val, acks) == Write(s, reg, val, ALL)
  {
    hide ShadowEqual, ShadowStore, Messages;
    SuccessIsWhole(s.chip, reg, val, acks);
    CountBound(|val|);
    MessagesAddUp(s.chip, reg, val, ALL);
    if acks >= Count(|val|) { MessagesAddUp(s.chip, reg, val, acks); }
  }

  // A masked write and a block write, seen from the chip if they report success.
  method SetMasked(t: Tuner, reg: nat, val: Byte, mask: Byte, acks: nat) returns (ok: bool)
    requires t.Valid() && Agree(t.S()) && START <= reg < START + NUM_REGS
    modifies t`chip, t.regs
    ensures t.Valid() && (acks >= ALL ==> ok)
    ensures ok ==> Agree(t.S()) && t.chip == Overwrite(old(t.chip), reg, [Masked(old(t.chip)[reg], val, mask)])
  {
    StepIsDirect(t.S(), Mask(reg, val, mask));
    SuccessIsDirect(t.S(), reg, [Masked(t.regs[reg - START], val, mask)], acks);
    hide Write, Masked;
    ok := t.WriteRegMask(reg, val, mask, acks);
  }

  method SetBlock(t: Tuner, reg: nat, vals: seq<Byte>, acks: nat) returns (ok: bool)
    requires t.Valid() && Agree(t.S()) && reg + |vals| <= FILE
    modifies t`chip, t.regs
    ensures t.Valid() && (acks >= ALL ==> ok)
    ensures ok ==> Agree(t.S()) && t.chip == Overwrite(old(t.chip), reg, vals)
  {
    StepIsDirect(t.S(), Block(reg, vals));
    SuccessIsDirect(t.S(), reg, vals, acks);
    hide Write;
    ok := t.WriteBlock(reg, vals, acks);
  }

  // The divider field, and the flag that switches the fraction off.
  function DivCode(chip: seq<Byte>): nat
    requires |chip| == FILE
  {
    UpperField(chip[0x10])
  }

  predicate IntegerMode(chip: seq<Byte>)
    requires |chip| == FILE
  {
    Bit3(chip[0x12])
  }

  lemma PllRegsSay(was: seq<Byte>, divField: nat, d: nat)
    requires |was| == 7 && divField < 8
    ensures UpperField(PllRegs(was, divField, d)[0]) == divField
    ensures Bit3(PllRegs(was, divField, d)[2]) <==> Sdm(d) == 0
  {
    UpperFieldOfMasked(Masked(was[0], 0, 0x10), divField);
    Bit3OfMasked(was[2], Sdm(d) == 0);
    hide Masked, UpperField, Bit3, Sdm;
  }

  // ---------------------------------------------------------------- every bit of the chip

  // Register 0x10: the divider's number in the upper three bits, the reference divider (bit 4) off.
  predicate Says10(was: Byte, now: Byte, field: nat)
    requires field < 8
  {
    Bits(now) == (Bits(was) & 0x0f) | ((field as bv8) << 5)
  }

  // 0x12: the VCO current in the upper three bits, the higher one if the first look found no lock, and
  // bit 3, which switches the fraction off.
  predicate Says12(was: Byte, now: Byte, whole: bool, first: bool) {
    Bits(now) == (Bits(was) & 0x17) | (if whole then 0x08 else 0x00) | (if first then 0x80 else 0x60)
  }

  // 0x1a: the autotune clock in bits 2 and 3, at 8 kHz once there is a lock and at 128 kHz without.
  predicate Says1a(was: Byte, now: Byte, locked: bool) {
    Bits(now) == (Bits(was) & 0xf3) | (if locked then 0x08 else 0x00)
  }

  // What a successful call leaves in the chip. 0x14 to 0x16 hold the fractional divider; every other
  // register is as before.
  predicate Tuned(before: seq<Byte>, after: seq<Byte>, field: nat, whole: bool, first: bool, locked: bool)
    requires |before| == |after| == FILE && field < 8
  {
    && (forall r :: 0 <= r < FILE && r != 0x10 && r != 0x12 && r != 0x14 && r != 0x15 && r != 0x16 && r != 0x1a ==>
          after[r] == before[r])
    && Says10(before[0x10], after[0x10], field) && Says12(before[0x12], after[0x12], whole, first)
    && Says1a(before[0x1a], after[0x1a], locked)
  }

  function With(chip: seq<Byte>, reg: nat, val: Byte, mask: Byte): (r: seq<Byte>)
    requires |chip| == FILE && reg < FILE
    ensures |r| == FILE
  {
    Overwrite(chip, reg, [Masked(chip[reg], val, mask)])
  }

  function Prepared(chip: seq<Byte>): (r: seq<Byte>)
    requires |chip| == FILE
    ensures |r| == FILE
  {
    With(With(chip, 0x1a, 0x00, 0x0c), 0x12, 0x80, 0xe0)
  }

  function Programmed(chip: seq<Byte>, field: nat, d: nat): (r: seq<Byte>)
    requires |chip| == FILE && field < 8
    ensures |r| == FILE
  {
    Overwrite(chip, 0x10, PllRegs(chip[0x10..0x17], field, d))
  }

  function Awaited(chip: seq<Byte>, first: bool, locked: bool): (r: seq<Byte>)
    requires |chip| == FILE
    ensures |r| == FILE
  {
    var c := if first then chip else With(chip, 0x12, 0x60, 0xe0);
    if locked then With(c, 0x1a, 0x08, 0x08) else c
  }

  lemma Bits10(w: bv8, f: bv8)
    requires f < 8
    ensures (((w & !0x10) | (0 & 0x10)) & !0xe0) | ((f << 5) & 0xe0) == (w & 0x0f) | (f << 5)
  {
  }

  lemma Bits12(w: bv8, flag: bv8)
    requires flag == 0 || flag == 0x08
    ensures var z := (((w & !0xe0) | (0x80 & 0xe0)) & !0x08) | (flag & 0x08);
            z == (w & 0x17) | flag | 0x80 && (z & !0xe0) | (0x60 & 0xe0) == (w & 0x17) | flag | 0x60
  {
  }

  lemma Bits1a(w: bv8, locked: bool)
    ensures var y := (w & !0x0c) | (0 & 0x0c);
            (if locked then (y & !0x08) | (0x08 & 0x08) else y) == (w & 0xf3) | (if locked then 0x08 else 0)
  {
  }

  lemma Constants()
    ensures Bits(0) == 0 && Bits(0x08) == 0x08 && Bits(0x0c) == 0x0c && Bits(0x10) == 0x10
    ensures Bits(0x60) == 0x60 && Bits(0x80) == 0x80 && Bits(0xe0) == 0xe0
  {
  }

  lemma Reg10(was: Byte, field: nat)
    requires field < 8
    ensures Says10(was, Masked(Masked(was, 0, 0x10), field * 32, 0xe0), field)
  {
    Constants();
    ShiftedUp(field);
    assert Bits(field) == field as bv8;
    MaskedIs(was, 0, 0x10);
    MaskedIs(Masked(was, 0, 0x10), field * 32, 0xe0);
    hide Bits, Masked, Value;
    Bits10(Bits(was), Bits(field));
  }

  lemma Reg12(was: Byte, whole: bool, first: bool)
    ensures var z := Masked(Masked(was, 0x80, 0xe0), if whole then 0x08 else 0x00, 0x08);
            Says12(was, if first then z else Masked(z, 0x60, 0xe0), whole, first)
  {
    Constants();
    var flag := if whole then 0x08 else 0x00;
    var y := Masked(was, 0x80, 0xe0);
    var z := Masked(y, flag, 0x08);
    MaskedIs(was, 0x80, 0xe0);
    MaskedIs(y, flag, 0x08);
    MaskedIs(z, 0x60, 0xe0);
    hide Bits, Masked, Value;
    assert Bits(flag) == if whole then 0x08 else 0x00;
    Bits12(Bits(was), Bits(flag));
  }

  lemma Reg1a(was: Byte, locked: bool)
    ensures var y := Masked(was, 0x00, 0x0c); Says1a(was, if locked then Masked(y, 0x08, 0x08) else y, locked)
  {
    Constants();
    var y := Masked(was, 0x00, 0x0c);
    MaskedIs(was, 0x00, 0x0c);
    MaskedIs(y, 0x08, 0x08);
    hide Bits, Masked, Value;
    Bits1a(Bits(was), locked);
  }

  lemma WithAt(chip: seq<Byte>, reg: nat, val: Byte, mask: Byte)
    requires |chip| == FILE && reg < FILE
    ensures forall r :: 0 <= r < FILE ==> With(chip, reg, val, mask)[r] == if r == reg then Masked(chip[reg], val, mask) else chip[r]
  {
    hide Masked;
  }

  lemma PreparedAt(chip: seq<Byte>)
    requires |chip| == FILE
    ensures var c := Prepared(chip);
            && c[0x1a] == Masked(chip[0x1a], 0x00, 0x0c) && c[0x12] == Masked(chip[0x12], 0x80, 0xe0)
            && forall r :: 0 <= r < FILE && r != 0x1a && r != 0x12 ==> c[r] == chip[r]
  {
    WithAt(chip, 0x1a, 0x00, 0x0c);
    WithAt(With(chip, 0x1a, 0x00, 0x0c), 0x12, 0x80, 0xe0);
    hide With, Masked;
  }

  lemma ProgrammedAt(chip: seq<Byte>, field: nat, d: nat)
    requires |chip| == FILE && field < 8
    ensures var c := Programmed(chip, field, d);
            && c[0x10] == Masked(Masked(chip[0x10], 0, 0x10), field * 32, 0xe0)
            && c[0x12] == Masked(chip[0x12], if Sdm(d) == 0 then 0x08 else 0x00, 0x08)
            && forall r :: 0 <= r < FILE && r != 0x10 && r != 0x12 && r != 0x14 && r != 0x15 && r != 0x16 ==> c[r] == chip[r]
  {
    hide Masked, Sdm, Nint, NintByte;
    var was := chip[0x10..0x17];
    assert was[0] == chip[0x10] && was[1] == chip[0x11] && was[2] == chip[0x12] && was[3] == chip[0x13];
    PutAt(chip, PllRegs(was, field, d));
  }

  lemma PutAt(chip: seq<Byte>, v: seq<Byte>)
    requires |chip| == FILE && |v| == 7
    ensures forall r :: 0 <= r < FILE ==> Overwrite(chip, 0x10, v)[r] == if 0x10 <= r < 0x17 then v[r - 0x10] else chip[r]
  {
  }

  lemma AwaitedAt(chip: seq<Byte>, first: bool, locked: bool)
    requires |chip| == FILE
    ensures var c := Awaited(chip, first, locked);
            && c[0x12] == (if first then chip[0x12] else Masked(chip[0x12], 0x60, 0xe0))
            && c[0x1a] == (if locked then Masked(chip[0x1a], 0x08, 0x08) else chip[0x1a])
            && forall r :: 0 <= r < FILE && r != 0x1a && r != 0x12 ==> c[r] == chip[r]
  {
    WithAt(chip, 0x12, 0x60, 0xe0);
    WithAt(if first then chip else With(chip, 0x12, 0x60, 0xe0), 0x1a, 0x08, 0x08);
    hide With, Masked;
  }

  lemma FinalAt(chip: seq<Byte>, field: nat, d: nat, first: bool, locked: bool)
    requires |chip| == FILE && field < 8
    ensures var c := Awaited(Programmed(Prepared(chip), field, d), first, locked);
            var z := Masked(Masked(chip[0x12], 0x80, 0xe0), if Sdm(d) == 0 then 0x08 else 0x00, 0x08);
            var y := Masked(chip[0x1a], 0x00, 0x0c);
            && c[0x10] == Masked(Masked(chip[0x10], 0, 0x10), field * 32, 0xe0)
            && c[0x12] == (if first then z else Masked(z, 0x60, 0xe0))
            && c[0x1a] == (if locked then Masked(y, 0x08, 0x08) else y)
            && forall r :: 0 <= r < FILE && r != 0x10 && r != 0x12 && r != 0x14 && r != 0x15 && r != 0x16 && r != 0x1a ==>
                 c[r] == chip[r]
  {
    var p := Prepared(chip);
    var q := Programmed(p, field, d);
    PreparedAt(chip);
    ProgrammedAt(p, field, d);
    AwaitedAt(q, first, locked);
    hide Masked, Sdm, Prepared, Programmed, Awaited;
    assert p[0x10] == chip[0x10] && q[0x1a] == p[0x1a];
  }

  lemma TunedIs(chip: seq<Byte>, field: nat, d: nat, first: bool, locked: bool)
    requires |chip| == FILE && field < 8
    ensures Tuned(chip, Awaited(Programmed(Prepared(chip), field, d), first, locked), field, Sdm(d) == 0, first, locked)
  {
    Reg10(chip[0x10], field);
    Reg12(chip[0x12], Sdm(d) == 0, first);
    Reg1a(chip[0x1a], locked);
    FinalAt(chip, field, d, first, locked);
    hide Masked, Bits, Sdm, Prepared, Programmed, Awaited, Says10, Says12, Says1a;
  }

  // registers 0x10 to 0x16 in one write
  method ProgramPll(t: Tuner, field: nat, d: nat, acks: nat) returns (ok: bool)
    requires t.Valid() && Agree(t.S()) && field < 8
    modifies t`chip, t.regs
    ensures t.Valid() && (acks >= ALL ==> ok) && (ok ==> Agree(t.S()))
    ensures ok && 13 <= Nint(d) == d / 65536 ==> Synthesised(t.chip) == d
    ensures ok ==> DivCode(t.chip) == field && (IntegerMode(t.chip) <==> Sdm(d) == 0)
    ensures ok ==> t.chip == Programmed(old(t.chip), field, d)
  {
    var was := t.regs[0x10 - START..0x17 - START];
    var regs := PllRegs(was, field, d);
    assert was == t.chip[0x10..0x17];
    ok := SetBlock(t, 0x10, regs, acks);
    if ok {
      assert t.chip[0x14..0x17] == regs[4..] && t.chip[0x10] == regs[0] && t.chip[0x12] == regs[2];
      PllRegsSay(was, field, d);
      hide PllRegs, UpperField, Bit3, Sdm, Agree;
      if 13 <= Nint(d) == d / 65536 { RegistersDecode(t.chip, was, field, d); }
    }
  }

  // What the chip is read to say about the lock, the first and the second time; None if a read fails.
  datatype Locks = Locks(first: Option<bool>, second: Option<bool>)

  predicate Locked(l: Locks) { l.first == Some(true) || l.second == Some(true) }

  // waiting for the lock, with more VCO current the second time
  method AwaitLock(t: Tuner, locks: Locks, acks: nat -> nat) returns (ok: bool, hasLock: bool)
    requires t.Valid() && Agree(t.S())
    modifies t`chip, t.regs
    ensures t.Valid()
    ensures locks.first.Some? && locks.second.Some? && acks(3) >= ALL && acks(4) >= ALL ==> ok
    ensures ok ==> Agree(t.S()) && hasLock == Locked(locks)
    ensures ok ==> Synthesised(t.chip) == old(Synthesised(t.chip)) && DivCode(t.chip) == old(DivCode(t.chip))
    ensures ok ==> IntegerMode(t.chip) == old(IntegerMode(t.chip))
    ensures ok ==> t.chip == Awaited(old(t.chip), locks.first == Some(true), hasLock)
  {
    hide Masked, UpperField, Bit3;
    ok, hasLock := locks.first.Some?, locks.first == Some(true);
    if ok && !hasLock {
      Bit3Besides(t.chip[0x12], 0x60);
      ok := SetMasked(t, 0x12, 0x60, 0xe0, acks(3));
      ok, hasLock := ok && locks.second.Some?, locks.second == Some(true);
    }
    if ok && hasLock { ok := SetMasked(t, 0x1a, 0x08, 0x08, acks(4)); }
  }

  // the second half of r82xx_set_pll
  method TryPll(t: Tuner, field: nat, d: nat, vcoPowerRef: nat, locks: Locks, acks: nat -> nat) returns (rc: int, hasLock: bool)
    requires t.Valid() && Agree(t.S()) && field < 8 && (vcoPowerRef == 1 || vcoPowerRef == 2)
    modifies t`chip, t.regs
    ensures t.Valid() && (rc == 0 || rc == -1)
    ensures Nint(d) > 128 / vcoPowerRef - 1 ==> rc == -1 && Agree(t.S())
    ensures NoFault(locks, acks) && Nint(d) <= 128 / vcoPowerRef - 1 ==> rc == 0
    ensures rc == 0 ==> Agree(t.S()) && hasLock == Locked(locks)
    ensures rc == 0 ==> DivCode(t.chip) == field && (IntegerMode(t.chip) <==> Sdm(d) == 0)
    ensures rc == 0 && 13 <= Nint(d) == d / 65536 ==> Synthesised(t.chip) == d
    ensures rc == 0 ==> t.chip == Awaited(Programmed(old(t.chip), field, d), locks.first == Some(true), hasLock)
  {
    hide Agree, Synthesised, DivCode, IntegerMode, Sdm, Nint, Programmed, Awaited;
    rc, hasLock := -1, false;
    if Nint(d) <= 128 / vcoPowerRef - 1 {
      var ok := ProgramPll(t, field, d, acks(2));
      if ok { ok, hasLock := AwaitLock(t, locks, acks); }
      if ok { rc := 0; }
    }
  }

  lemma FieldSays(mixDiv: nat, divNum: nat, fine: nat, vcoPowerRef: nat)
    requires IsDivider(mixDiv) && divNum == Halvings(mixDiv)
    ensures var f := DivField(divNum, fine, vcoPowerRef);
            && (fine == vcoPowerRef ==> mixDiv == 2 * Pow2(f))
            && (fine < vcoPowerRef ==> mixDiv == Pow2(f))
            && (fine > vcoPowerRef ==> if mixDiv == 2 then f == 7 else mixDiv == 4 * Pow2(f))
  {
    HalvingsAreLog(mixDiv);
    DivFieldIff(divNum, fine, vcoPowerRef);
    hide DivField;
  }

  // 100 MHz with the usual crystal: divide by 32, whose number is 4; 55 and 36409 / 65536 times the doubled
  // reference; the integer part in its odd byte.
  lemma HundredMegahertz()
    ensures FreqKhz(100_000_000) == 100_000 && Fits(100_000, 32) && Halvings(32) == 4
    ensures VcoDiv(3_200_000_000, 28_800_000) == 55 * 65536 + 36409
    ensures Nint(55 * 65536 + 36409) == 55 && Sdm(55 * 65536 + 36409) == 36409 && NintByte(55) == 138 && DecodeNint(138) == 55
  {
    assert Halvings(2) == 0 && Halvings(4) == 1 && Halvings(8) == 2 && Halvings(16) == 3;
    assert Ni(55) == 10 && Si(55) == 2;
  }

  // Every message is acknowledged and every read succeeds. acks(k) is how many messages of write k are.
  predicate NoFault(locks: Locks, acks: nat -> nat) {
    locks.first.Some? && locks.second.Some? && forall k: nat :: k < 5 ==> acks(k) >= ALL
  }

  // the writes before the divider search
  method Prepare(t: Tuner, acks: nat -> nat) returns (ok: bool)
    requires t.Valid() && Agree(t.S())
    modifies t`chip, t.regs
    ensures t.Valid() && (ok ==> Agree(t.S())) && (acks(0) >= ALL && acks(1) >= ALL ==> ok)
    ensures ok ==> t.chip == Prepared(old(t.chip))
  {
    ok := SetMasked(t, 0x1a, 0x00, 0x0c, acks(0));
    if ok { ok := SetMasked(t, 0x12, 0x80, 0xe0, acks(1)); }
  }

  // the reads and writes of r82xx_set_pll, in order
  method WritePll(t: Tuner, field: nat, d: nat, vcoPowerRef: nat, readOk: bool, locks: Locks, acks: nat -> nat)
    returns (rc: int, hasLock: bool)
    requires t.Valid() && Agree(t.S()) && field < 8 && (vcoPowerRef == 1 || vcoPowerRef == 2)
    modifies t`chip, t.regs
    ensures t.Valid() && (rc == 0 || rc == -1)
    ensures Nint(d) > 128 / vcoPowerRef - 1 ==> rc == -1
    ensures NoFault(locks, acks) && readOk && Nint(d) <= 128 / vcoPowerRef - 1 ==> rc == 0
    ensures rc == 0 ==> Agree(t.S()) && hasLock == Locked(locks) && readOk
    ensures rc == 0 ==> DivCode(t.chip) == field && (IntegerMode(t.chip) <==> Sdm(d) == 0)
    ensures rc == 0 && 13 <= Nint(d) == d / 65536 ==> Synthesised(t.chip) == d
    ensures rc == 0 ==> Tuned(old(t.chip), t.chip, field, Sdm(d) == 0, locks.first == Some(true), hasLock)
  {
    hide Agree, Synthesised, DivCode, IntegerMode, Sdm, Nint, Prepared, Programmed, Awaited, Tuned;
    rc, hasLock := -1, false;
    TunedIs(t.chip, field, d, locks.first == Some(true), Locked(locks));
    var ok := Prepare(t, acks);
    if ok && readOk { rc, hasLock := TryPll(t, field, d, vcoPowerRef, locks, acks); }
  }

  // r82xx_set_pll; fine and locks are what the chip is read to say. A write or read that fails ends it
  // with an error, and success says that everything has arrived, whatever the bus did.
  method SetPll(t: Tuner, xtal: nat, vcoPowerRef: nat, freq: nat, fine: Option<nat>, locks: Locks, acks: nat -> nat)
    returns (rc: int, hasLock: bool, mixDiv: nat, vcoDiv: nat)
    requires t.Valid() && Agree(t.S()) && xtal > 0 && freq < UINT32 && (vcoPowerRef == 1 || vcoPowerRef == 2)
    modifies t`chip, t.regs
    ensures t.Valid() && (rc == 0 || rc == -1)
    ensures IsDivider(mixDiv) <==> 27_657 <= FreqKhz(freq) < VCO_MIN
    ensures IsDivider(mixDiv) ==> Fits(FreqKhz(freq), mixDiv)
    ensures vcoDiv == VcoDiv(freq * mixDiv, xtal)
    ensures Nint(vcoDiv) > 128 / vcoPowerRef - 1 ==> rc == -1
    ensures NoFault(locks, acks) && fine.Some? ==> rc == if Nint(vcoDiv) > 128 / vcoPowerRef - 1 then -1 else 0
    ensures rc == 0 ==> Agree(t.S()) && hasLock == Locked(locks) && fine.Some?
    ensures rc == 0 ==>
              DivCode(t.chip) == DivField(if IsDivider(mixDiv) then Halvings(mixDiv) else 0, fine.value, vcoPowerRef)
    // the chip divides by mixDiv, once its fine tune is taken into account, but for the one case that wraps
    ensures rc == 0 && IsDivider(mixDiv) && fine.value == vcoPowerRef ==> mixDiv == 2 * Pow2(DivCode(t.chip))
    ensures rc == 0 && IsDivider(mixDiv) && fine.value < vcoPowerRef ==> mixDiv == Pow2(DivCode(t.chip))
    ensures rc == 0 && IsDivider(mixDiv) && fine.value > vcoPowerRef ==>
              if mixDiv == 2 then DivCode(t.chip) == 7 else mixDiv == 4 * Pow2(DivCode(t.chip))
    ensures rc == 0 ==>
              Tuned(old(t.chip), t.chip, DivCode(t.chip), Sdm(vcoDiv) == 0, locks.first == Some(true), hasLock)
    ensures rc == 0 ==> (IntegerMode(t.chip) <==> Sdm(vcoDiv) == 0)
    ensures rc == 0 && 13 <= Nint(vcoDiv) == vcoDiv / 65536 ==> Synthesised(t.chip) == vcoDiv
    ensures Supported(xtal, vcoPowerRef) && IsDivider(mixDiv) && NoFault(locks, acks) && fine.Some? ==> rc == 0
    ensures Supported(xtal, vcoPowerRef) && IsDivider(mixDiv) && rc == 0 ==>
              Accurate(Synthesised(t.chip), freq * mixDiv, xtal)
  {
    var khz := FreqKhz(freq);
    hide FreqKhz, Agree;
    var divNum;
    mixDiv, divNum := FindDivider(khz);
    DividerExistsIff(khz);
    var vco := freq * mixDiv;
    vcoDiv := VcoDiv(vco, xtal);
    hide VcoDiv, Fits, Synthesised, Nint, DivCode, IntegerMode, Sdm, Accurate, Supported, Tuned;
    var f := if fine.Some? then fine.value else 0;
    var field := DivField(divNum, f, vcoPowerRef);
    if IsDivider(mixDiv) { FieldSays(mixDiv, divNum, f, vcoPowerRef); }
    hide DivField, Pow2, Halvings, NoFault;
    rc, hasLock := WritePll(t, field, vcoDiv, vcoPowerRef, fine.Some?, locks, acks);
    if Supported(xtal, vcoPowerRef) && IsDivider(mixDiv) {
      SupportedIsAccurate(freq, mixDiv, xtal, vcoPowerRef, Synthesised(t.chip));
    }
  }
}
