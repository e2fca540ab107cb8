// Bytes of eight-bit registers as numbers and as bits, and the masked update of mask_reg8 and
// r82xx_write_reg_mask in rtl-sdr/src/tuner_r82xx.c.

module RegisterBits {
  import opened Wrappers

  function Bits(x: Byte): bv8 { x as bv8 }

  function Value(b: bv8): Byte { b as Byte }

  function Masked(was: Byte, val: Byte, mask: Byte): Byte {
    Value((Bits(was) & !Bits(mask)) | (Bits(val) & Bits(mask)))
  }

  lemma BitsOfValue(b: bv8)
    ensures Bits(Value(b)) == b
  {
  }

  lemma MaskedIs(was: Byte, val: Byte, mask: Byte)
    ensures Bits(Masked(was, val, mask)) == (Bits(was) & !Bits(mask)) | (Bits(val) & Bits(mask))
  {
    hide Bits, Value;
    BitsOfValue((Bits(was) & !Bits(mask)) | (Bits(val) & Bits(mask)));
  }

  lemma UnderAndBesides(w: bv8, v: bv8, m: bv8)
    ensures ((w & !m) | (v & m)) & m == v & m
    ensures ((w & !m) | (v & m)) & !m == w & !m
  {
  }

  // The bits under the mask are those of val, the others those of was.
  lemma MaskedBits(was: Byte, val: Byte, mask: Byte)
    ensures Bits(Masked(was, val, mask)) & Bits(mask) == Bits(val) & Bits(mask)
    ensures Bits(Masked(was, val, mask)) & !Bits(mask) == Bits(was) & !Bits(mask)
  {
    MaskedIs(was, val, mask);
    hide Masked, Bits;
    UnderAndBesides(Bits(was), Bits(val), Bits(mask));
  }

  // The upper three bits as a number.
  function UpperField(b: Byte): nat { (Bits(b) >> 5) as nat }

  lemma ShiftedUp(f: nat)
    requires f < 8
    ensures Bits(f * 32) == Bits(f) << 5 && Bits(f) as nat == f && Bits(f) < 8
  {
    assert f == 0 || f == 1 || f == 2 || f == 3 || f == 4 || f == 5 || f == 6 || f == 7;
  }

  lemma UpperBits(w: bv8, f: bv8)
    requires f < 8
    ensures ((w & !0xe0) | ((f << 5) & 0xe0)) >> 5 == f
  {
  }

  lemma UpperFieldOfMasked(was: Byte, f: nat)
    requires f < 8
    ensures UpperField(Masked(was, f * 32, 0xe0)) == f
  {
    ShiftedUp(f);
    assert Bits(0xe0) == 0xe0;
    MaskedIs(was, f * 32, 0xe0);
    hide Bits, Value, Masked;
    UpperBits(Bits(was), Bits(f));
  }

  // Bit 3 as a flag.
  predicate Bit3(b: Byte) { Bits(b) & 8 != 0 }

  lemma Bit3OfMasked(was: Byte, on: bool)
    ensures Bit3(Masked(was, if on then 8 else 0, 8)) <==> on
  {
    assert Bits(8) == 8 && Bits(0) == 0;
    MaskedBits(was, if on then 8 else 0, 8);
    hide Masked;
  }

  lemma Bit3Besides(was: Byte, val: Byte)
    ensures Bit3(Masked(was, val, 0xe0)) <==> Bit3(was)
  {
    assert Bits(0xe0) == 0xe0;
    MaskedBits(was, val, 0xe0);
    hide Masked;
    BesidesUpper(Bits(Masked(was, val, 0xe0)), Bits(was));
  }

  lemma BesidesUpper(a: bv8, b: bv8)
    requires a & !0xe0 == b & !0xe0
    ensures a & 8 == b & 8
  {
  }
}
