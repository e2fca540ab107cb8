// The sample rate of the RTL2832 (rtlsdr_set_sample_rate in rtl-sdr/src/librtlsdr.c) with its 28.8 MHz
// crystal: the ratio that goes into a 28-bit register, what the chip makes of it, and why exactly the
// accepted rates come out right. Doubles are replaced by exact integer division.

module Resampler {

  const XTAL := 28_800_000
  const SCALED := XTAL * 0x40_0000     // the crystal times two to the 22

  const BIT27 := 0x800_0000
  const BIT28 := 0x1000_0000
  const EINVAL := 22

  predicate Accepted(rate: nat) { 225_000 < rate <= 300_000 || 900_000 < rate <= 3_200_000 }

  // The ratio, with its two low bits cleared and cut down to 28 bits: & 0x0ffffffc.
  function Ratio(rate: nat): nat
    requires rate > 0
  {
    SCALED / rate % BIT28 / 4 * 4
  }

  // The chip copies bit 27 to bit 28.
  function ChipRatio(ratio: nat): nat {
    if ratio / BIT27 % 2 == 1 then ratio % BIT28 + BIT28 else ratio % BIT28
  }

  // The ratio that was meant, with only its two low bits cleared.
  function MeantRatio(rate: nat): nat
    requires rate > 0
  {
    SCALED / rate / 4 * 4
  }

  lemma QuotientAtLeast(rate: nat, bound: nat)
    requires rate > 0 && bound > 0
    ensures SCALED / rate >= bound <==> rate * bound <= SCALED
  {
    var q := SCALED / rate;
    assert SCALED == q * rate + SCALED % rate;
    if q >= bound {
      assert rate * bound <= rate * q;
    } else {
      assert rate * (q + 1) <= rate * bound;
    }
  }

  // The ratio is understood exactly for rates above 225000 and up to 300000, and above 900000: what
  // the rate check lets pass, up to the fastest rate of the chip.
  lemma UnderstoodIff(rate: nat)
    requires rate > 0
    ensures ChipRatio(Ratio(rate)) == MeantRatio(rate) <==> 225_000 < rate <= 300_000 || 900_000 < rate
  {
    var q := SCALED / rate;
    QuotientAtLeast(rate, BIT27);
    QuotientAtLeast(rate, 3 * BIT27);
    QuotientAtLeast(rate, 4 * BIT27);
    assert 900_000 * BIT27 == SCALED && 300_000 * (3 * BIT27) == SCALED && 225_000 * (4 * BIT27) == SCALED;
    UnderstoodByBits(q);
  }

  lemma UnderstoodByBits(q: nat)
    ensures ChipRatio(q % BIT28 / 4 * 4) == q / 4 * 4 <==> q < BIT27 || 3 * BIT27 <= q < 4 * BIT27
  {
  }

  lemma LowBitsCleared(n: nat, d: nat, m: nat)
    requires d > 0 && m == n / d / 4 * 4
    ensures d * m <= n < d * m + 4 * d
  {
    var q, low := n / d, n / d % 4;
    assert q == m + low;
    assert n == d * q + n % d;
    assert d * q == d * m + d * low;
    assert d * low <= d * 3;
  }

  lemma MeantIsLarge(rate: nat)
    requires 0 < rate <= 3_200_000
    ensures MeantRatio(rate) > 4 * rate
  {
    QuotientAtLeast(rate, 37_748_736);
    assert rate * 37_748_736 <= 3_200_000 * 37_748_736;
  }

  // For every accepted rate the chip runs at the requested rate or above it by less than 4 * rate /
  // ratio, which is below one hertz, and the driver remembers the requested rate to the hertz.
  lemma AcceptedIsExact(rate: nat)
    requires Accepted(rate)
    ensures var m := ChipRatio(Ratio(rate));
            && m == MeantRatio(rate) && m > 4 * rate
            && rate * m <= SCALED < rate * m + 4 * rate
            && SCALED / m == rate
  {
    UnderstoodIff(rate);
    var m := MeantRatio(rate);
    LowBitsCleared(SCALED, rate, m);
    MeantIsLarge(rate);
    hide MeantRatio, Ratio, ChipRatio;
    DivisionIs(SCALED, m, rate);
  }

  lemma DivisionIs(n: nat, d: nat, q: nat)
    requires d > 0 && q * d <= n < q * d + d
    ensures n / d == q
  {
    var p := n / d;
    assert n == p * d + n % d;
    Monotone(p + 1, q, d);
    Monotone(q + 1, p, d);
  }

  lemma Monotone(a: nat, b: nat, d: nat)
    ensures a <= b ==> a * d <= b * d
  {
  }

  // ---------------------------------------------------------------- in place

  class Demodulator {
    var rate: nat         // dev->rate
    var ratioHigh: nat    // register 0x9f of page 1, two bytes
    var ratioLow: nat     // register 0xa1

    // What the chip makes of its two registers.
    function Received(): nat
      reads this
    {
      ChipRatio(ratioHigh * 0x1_0000 + ratioLow)
    }

    // rtlsdr_set_sample_rate. ack says which of the two register writes the chip takes, restOk whether
    // the correction and the soft reset are written after them; the rate is remembered in any case.
    method SetSampleRate(sampRate: nat, ackHigh: bool, ackLow: bool, restOk: bool) returns (r: int)
      modifies this
      ensures r == if !Accepted(sampRate) then -EINVAL else if ackHigh && ackLow && restOk then 0 else -1
      ensures r == -EINVAL ==> rate == old(rate) && ratioHigh == old(ratioHigh) && ratioLow == old(ratioLow)
      ensures r != -EINVAL ==> rate == sampRate
      ensures r == 0 || (r == -1 && ackHigh && ackLow) ==>
                && ratioHigh < 0x1000 && ratioLow < 0x1_0000
                && sampRate * Received() <= SCALED < sampRate * Received() + 4 * sampRate
                && Received() > 4 * sampRate
      ensures r == -1 ==>
                && ratioHigh == (if ackHigh then Ratio(sampRate) / 0x1_0000 else old(ratioHigh))
                && ratioLow == (if ackLow then Ratio(sampRate) % 0x1_0000 else old(ratioLow))
    {
      if sampRate <= 225_000 || sampRate > 3_200_000 || (sampRate > 300_000 && sampRate <= 900_000) {
        return -EINVAL;
      }
      var ratio := SCALED / sampRate;
      ratio := ratio % BIT28 / 4 * 4;
      var realRatio := ChipRatio(ratio);
      AcceptedIsExact(sampRate);
      rate := SCALED / realRatio;
      r := if restOk then 0 else -1;
      if ackHigh { ratioHigh := ratio / 0x1_0000; } else { r := -1; }
      if ackLow { ratioLow := ratio % 0x1_0000; } else { r := -1; }
    }
  }
}
