/**
 * The bit-field helpers of types.h (BIT, MASK, GENMASK, _FIELD_LSB,
 * FIELD_PREP, FIELD_GET, STACK_ALIGN) and the alignment helpers of utils.h
 * (ALIGN_UP, ALIGN_DOWN).
 *
 * `unsigned long` is 32 bits wide on the ARMv7 target, so the bit helpers
 * work on `bv32`. The alignment helpers are stated on 32-bit unsigned
 * integers as naturals below 2^32, where `x & ~(a - 1)` for a power of two
 * `a` is `x - x % a`.
 */
module Bits {

  /** Bit `i` of `x` is set. */
  predicate BitSet(x: bv32, i: bv32)
  {
    i < 32 && (x >> i) & 1 == 1
  }

  lemma AndBit(a: bv32, b: bv32, i: bv32)
    ensures BitSet(a & b, i) <==> BitSet(a, i) && BitSet(b, i)
  {
  }

  lemma OrBit(a: bv32, b: bv32, i: bv32)
    ensures BitSet(a | b, i) <==> BitSet(a, i) || BitSet(b, i)
  {
  }

  lemma NotBit(a: bv32, i: bv32)
    ensures BitSet(!a, i) <==> i < 32 && !BitSet(a, i)
  {
  }

  lemma ClearBit(x: bv32, m: bv32, i: bv32)
    ensures BitSet(x & !m, i) <==> BitSet(x, i) && !BitSet(m, i)
  {
    AndBit(x, !m, i);
    NotBit(m, i);
  }

  /** `x & ~m` keeps exactly the bits of `x` outside `m`. */
  lemma ClearBits(x: bv32, m: bv32)
    ensures forall i :: BitSet(x & !m, i) <==> BitSet(x, i) && !BitSet(m, i)
  {
    forall i
      ensures BitSet(x & !m, i) <==> BitSet(x, i) && !BitSet(m, i)
    {
      ClearBit(x, m, i);
    }
  }

  /** `x | m` has exactly the bits of `x` and those of `m`. */
  lemma SetBits(x: bv32, m: bv32)
    ensures forall i :: BitSet(x | m, i) <==> BitSet(x, i) || BitSet(m, i)
  {
    forall i
      ensures BitSet(x | m, i) <==> BitSet(x, i) || BitSet(m, i)
    {
      OrBit(x, m, i);
    }
  }

  /** BIT(x): the value with bit `x` alone set. */
  function Bit(x: bv32): bv32
    requires x < 32
  {
    1 << x
  }

  /** MASK(x): the value with the low `x` bits set. */
  function Mask(x: bv32): bv32
    requires x < 32
  {
    Bit(x) - 1
  }

  /** GENMASK(msb, lsb); BIT's argument `msb + 1 - lsb` must stay below 32. */
  function GenMask(msb: bv32, lsb: bv32): bv32
    requires lsb <= msb < 32 && msb - lsb < 31
  {
    Mask(msb + 1 - lsb) << lsb
  }

  /** BIT(x) has bit `x` set and no other. */
  lemma BitBits(x: bv32)
    requires x < 32
    ensures forall i :: BitSet(Bit(x), i) <==> i == x
  {
  }

  /** MASK(x) has exactly the bits below `x` set. */
  lemma MaskBits(x: bv32)
    requires x < 32
    ensures forall i :: BitSet(Mask(x), i) <==> i < x
  {
  }

  /** GENMASK(msb, lsb) has exactly the bits `lsb` to `msb` set. */
  lemma GenMaskBits(msb: bv32, lsb: bv32)
    requires lsb <= msb < 32 && msb - lsb < 31
    ensures forall i :: BitSet(GenMask(msb, lsb), i) <==> lsb <= i <= msb
  {
  }

  /** _FIELD_LSB(field): `field` with every bit but its lowest set bit cleared. */
  function FieldLsb(f: bv32): bv32
  {
    f & !(f - 1)
  }

  /** _FIELD_LSB(f) is 0 for 0, and otherwise the single bit of `f` below which `f` has no bit. */
  lemma FieldLsbBits(f: bv32)
    ensures f == 0 ==> FieldLsb(f) == 0
    ensures f != 0 ==> FieldLsb(f) != 0 && FieldLsb(f) & (FieldLsb(f) - 1) == 0
    ensures FieldLsb(f) & f == FieldLsb(f) && f & (FieldLsb(f) - 1) == 0
  {
  }

  /**
   * The position of a single set bit: the `n` with BIT(n) == `d` when `d`
   * is a power of two, and 32 when `d` is 0. Each term reads one bit of the
   * position off the mask of the positions that have that bit.
   */
  function BitIndex(d: bv32): (n: bv32)
    ensures n <= 32
  {
    (if d == 0 then 32 else 0)
    | (if d & 0xffff_0000 != 0 then 16 else 0)
    | (if d & 0xff00_ff00 != 0 then 8 else 0)
    | (if d & 0xf0f0_f0f0 != 0 then 4 else 0)
    | (if d & 0xcccc_cccc != 0 then 2 else 0)
    | (if d & 0xaaaa_aaaa != 0 then 1 else 0)
  }

  /** The position of the lowest set bit of `f`, 32 when `f` is 0. */
  function LowBit(f: bv32): bv32
  {
    BitIndex(FieldLsb(f))
  }

  /** `v << n` on u32, for a shift amount up to 32 (a shift by 32 yields 0). */
  function ShiftLeft(v: bv32, n: bv32): bv32
    requires n <= 32
  {
    v << n
  }

  /** `v >> n` on u32, for a shift amount up to 32 (a shift by 32 yields 0). */
  function ShiftRight(v: bv32, n: bv32): bv32
    requires n <= 32
  {
    v >> n
  }

  /**
   * FIELD_PREP(field, val): `val` moved up to the field's position. The
   * macro multiplies by _FIELD_LSB(field); FieldPrepIsProduct shows that
   * the shift here is the same 32-bit value, 0 for an empty field included.
   */
  function FieldPrep(f: bv32, v: bv32): bv32
  {
    ShiftLeft(v, LowBit(f))
  }

  /**
   * FIELD_GET(field, val): the field of `val` moved down to bit 0. The macro
   * divides by _FIELD_LSB(field), a division by zero for an empty field;
   * FieldGetIsQuotient shows that the shift here is the same value.
   */
  function FieldGet(f: bv32, v: bv32): bv32
    requires f != 0
  {
    ShiftRight(v & f, LowBit(f))
  }

  /** 32-bit multiplication, wrapping modulo 2^32 as C's `*` on u32 does. */
  function Product(v: bv32, m: bv32): bv32
  {
    v * m
  }

  /** Unsigned 32-bit division, C's `/` on two u32 operands. */
  function Quotient(y: bv32, d: bv32): bv32
    requires d != 0
  {
    y / d
  }

  /** BitIndex finds the position of BIT(n). */
  lemma BitIndexOfBit(n: bv32)
    requires n < 32
    ensures BitIndex(Bit(n)) == n
  {
  }

  /** The lowest set bit of a non-zero `f` lies below bit 32 and is _FIELD_LSB(f). */
  lemma LowBitIsLsb(f: bv32)
    requires f != 0
    ensures LowBit(f) < 32 && Bit(LowBit(f)) == FieldLsb(f)
  {
  }

  /** The lowest set bit of GENMASK(msb, lsb) is BIT(lsb). */
  lemma FieldLsbOfGenMask(msb: bv32, lsb: bv32)
    requires lsb <= msb < 32 && msb - lsb < 31
    ensures FieldLsb(GenMask(msb, lsb)) == Bit(lsb)
  {
  }

  /** GENMASK(msb, lsb) is not empty, and its lowest set bit is at position `lsb`. */
  lemma LowBitOfGenMask(msb: bv32, lsb: bv32)
    requires lsb <= msb < 32 && msb - lsb < 31
    ensures lsb < 32 && GenMask(msb, lsb) != 0 && LowBit(GenMask(msb, lsb)) == lsb
  {
    FieldLsbOfGenMask(msb, lsb);
    BitIndexOfBit(lsb);
  }

  /**
   * Dividing by BIT(n) is a logical shift right by `n`. The solver sees this
   * for a divisor it knows as a constant, so the proof goes through the
   * shift amounts one by one, sixteen to a lemma.
   */
  lemma QuotientBit(y: bv32, n: bv32, d: bv32)
    requires n < 32 && d == Bit(n)
    ensures d != 0 && Quotient(y, d) == ShiftRight(y, n)
  {
    if n < 16 {
      QuotientBitLow(y, n, d);
    } else {
      QuotientBitHigh(y, n, d);
    }
  }

  lemma QuotientBitLow(y: bv32, n: bv32, d: bv32)
    requires n < 16 && d == Bit(n)
    ensures d != 0 && Quotient(y, d) == ShiftRight(y, n)
  {
    assert y / 0x1 == y >> 0 &&
      y / 0x2 == y >> 1 &&
      y / 0x4 == y >> 2 &&
      y / 0x8 == y >> 3 &&
      y / 0x10 == y >> 4 &&
      y / 0x20 == y >> 5 &&
      y / 0x40 == y >> 6 &&
      y / 0x80 == y >> 7 &&
      y / 0x100 == y >> 8 &&
      y / 0x200 == y >> 9 &&
      y / 0x400 == y >> 10 &&
      y / 0x800 == y >> 11 &&
      y / 0x1000 == y >> 12 &&
      y / 0x2000 == y >> 13 &&
      y / 0x4000 == y >> 14 &&
      y / 0x8000 == y >> 15;
    if n == 0 {
      assert d == 0x1;
    } else if n == 1 {
      assert d == 0x2;
    } else if n == 2 {
      assert d == 0x4;
    } else if n == 3 {
      assert d == 0x8;
    } else if n == 4 {
      assert d == 0x10;
    } else if n == 5 {
      assert d == 0x20;
    } else if n == 6 {
      assert d == 0x40;
    } else if n == 7 {
      assert d == 0x80;
    } else if n == 8 {
      assert d == 0x100;
    } else if n == 9 {
      assert d == 0x200;
    } else if n == 10 {
      assert d == 0x400;
    } else if n == 11 {
      assert d == 0x800;
    } else if n == 12 {
      assert d == 0x1000;
    } else if n == 13 {
      assert d == 0x2000;
    } else if n == 14 {
      assert d == 0x4000;
    } else {
      assert d == 0x8000;
    }
  }

  lemma QuotientBitHigh(y: bv32, n: bv32, d: bv32)
    requires 16 <= n < 32 && d == Bit(n)
    ensures d != 0 && Quotient(y, d) == ShiftRight(y, n)
  {
    assert y / 0x10000 == y >> 16 &&
      y / 0x20000 == y >> 17 &&
      y / 0x40000 == y >> 18 &&
      y / 0x80000 == y >> 19 &&
      y / 0x100000 == y >> 20 &&
      y / 0x200000 == y >> 21 &&
      y / 0x400000 == y >> 22 &&
      y / 0x800000 == y >> 23 &&
      y / 0x1000000 == y >> 24 &&
      y / 0x2000000 == y >> 25 &&
      y / 0x4000000 == y >> 26 &&
      y / 0x8000000 == y >> 27 &&
      y / 0x10000000 == y >> 28 &&
      y / 0x20000000 == y >> 29 &&
      y / 0x40000000 == y >> 30 &&
      y / 0x80000000 == y >> 31;
    if n == 16 {
      assert d == 0x10000;
    } else if n == 17 {
      assert d == 0x20000;
    } else if n == 18 {
      assert d == 0x40000;
    } else if n == 19 {
      assert d == 0x80000;
    } else if n == 20 {
      assert d == 0x100000;
    } else if n == 21 {
      assert d == 0x200000;
    } else if n == 22 {
      assert d == 0x400000;
    } else if n == 23 {
      assert d == 0x800000;
    } else if n == 24 {
      assert d == 0x1000000;
    } else if n == 25 {
      assert d == 0x2000000;
    } else if n == 26 {
      assert d == 0x4000000;
    } else if n == 27 {
      assert d == 0x8000000;
    } else if n == 28 {
      assert d == 0x10000000;
    } else if n == 29 {
      assert d == 0x20000000;
    } else if n == 30 {
      assert d == 0x40000000;
    } else {
      assert d == 0x80000000;
    }
  }

  /** Multiplying by BIT(n) is a shift left by `n`, shown the same way. */
  lemma ProductBit(y: bv32, n: bv32, d: bv32)
    requires n < 32 && d == Bit(n)
    ensures Product(y, d) == ShiftLeft(y, n)
  {
    if n < 16 {
      ProductBitLow(y, n, d);
    } else {
      ProductBitHigh(y, n, d);
    }
  }

  lemma ProductBitLow(y: bv32, n: bv32, d: bv32)
    requires n < 16 && d == Bit(n)
    ensures Product(y, d) == ShiftLeft(y, n)
  {
    assert y * 0x1 == y << 0 &&
      y * 0x2 == y << 1 &&
      y * 0x4 == y << 2 &&
      y * 0x8 == y << 3 &&
      y * 0x10 == y << 4 &&
      y * 0x20 == y << 5 &&
      y * 0x40 == y << 6 &&
      y * 0x80 == y << 7 &&
      y * 0x100 == y << 8 &&
      y * 0x200 == y << 9 &&
      y * 0x400 == y << 10 &&
      y * 0x800 == y << 11 &&
      y * 0x1000 == y << 12 &&
      y * 0x2000 == y << 13 &&
      y * 0x4000 == y << 14 &&
      y * 0x8000 == y << 15;
    if n == 0 {
      assert d == 0x1;
    } else if n == 1 {
      assert d == 0x2;
    } else if n == 2 {
      assert d == 0x4;
    } else if n == 3 {
      assert d == 0x8;
    } else if n == 4 {
      assert d == 0x10;
    } else if n == 5 {
      assert d == 0x20;
    } else if n == 6 {
      assert d == 0x40;
    } else if n == 7 {
      assert d == 0x80;
    } else if n == 8 {
      assert d == 0x100;
    } else if n == 9 {
      assert d == 0x200;
    } else if n == 10 {
      assert d == 0x400;
    } else if n == 11 {
      assert d == 0x800;
    } else if n == 12 {
      assert d == 0x1000;
    } else if n == 13 {
      assert d == 0x2000;
    } else if n == 14 {
      assert d == 0x4000;
    } else {
      assert d == 0x8000;
    }
  }

  lemma ProductBitHigh(y: bv32, n: bv32, d: bv32)
    requires 16 <= n < 32 && d == Bit(n)
    ensures Product(y, d) == ShiftLeft(y, n)
  {
    assert y * 0x10000 == y << 16 &&
      y * 0x20000 == y << 17 &&
      y * 0x40000 == y << 18 &&
      y * 0x80000 == y << 19 &&
      y * 0x100000 == y << 20 &&
      y * 0x200000 == y << 21 &&
      y * 0x400000 == y << 22 &&
      y * 0x800000 == y << 23 &&
      y * 0x1000000 == y << 24 &&
      y * 0x2000000 == y << 25 &&
      y * 0x4000000 == y << 26 &&
      y * 0x8000000 == y << 27 &&
      y * 0x10000000 == y << 28 &&
      y * 0x20000000 == y << 29 &&
      y * 0x40000000 == y << 30 &&
      y * 0x80000000 == y << 31;
    if n == 16 {
      assert d == 0x10000;
    } else if n == 17 {
      assert d == 0x20000;
    } else if n == 18 {
      assert d == 0x40000;
    } else if n == 19 {
      assert d == 0x80000;
    } else if n == 20 {
      assert d == 0x100000;
    } else if n == 21 {
      assert d == 0x200000;
    } else if n == 22 {
      assert d == 0x400000;
    } else if n == 23 {
      assert d == 0x800000;
    } else if n == 24 {
      assert d == 0x1000000;
    } else if n == 25 {
      assert d == 0x2000000;
    } else if n == 26 {
      assert d == 0x4000000;
    } else if n == 27 {
      assert d == 0x8000000;
    } else if n == 28 {
      assert d == 0x10000000;
    } else if n == 29 {
      assert d == 0x20000000;
    } else if n == 30 {
      assert d == 0x40000000;
    } else {
      assert d == 0x80000000;
    }
  }

  /** FIELD_PREP as the macro writes it, a multiplication by _FIELD_LSB, is the shift FieldPrep. */
  lemma FieldPrepIsProduct(f: bv32, v: bv32)
    ensures FieldPrep(f, v) == Product(v, FieldLsb(f))
  {
    if f != 0 {
      LowBitIsLsb(f);
      ProductBit(v, LowBit(f), FieldLsb(f));
    }
  }

  /** FIELD_GET as the macro writes it, a division by _FIELD_LSB, is the shift FieldGet. */
  lemma FieldGetIsQuotient(f: bv32, v: bv32)
    requires f != 0
    ensures FieldLsb(f) != 0 && FieldGet(f, v) == Quotient(v & f, FieldLsb(f))
  {
    var y := v & f;
    LowBitIsLsb(f);
    QuotientBit(y, LowBit(f), FieldLsb(f));
  }

  /** On GENMASK(msb, lsb), FIELD_PREP shifts up by `lsb`. */
  lemma FieldPrepOnGenMask(msb: bv32, lsb: bv32, v: bv32)
    requires lsb <= msb < 32 && msb - lsb < 31
    requires LowBit(GenMask(msb, lsb)) == lsb
    ensures FieldPrep(GenMask(msb, lsb), v) == ShiftLeft(v, lsb)
  {
  }

  /** On GENMASK(msb, lsb), FIELD_GET masks and shifts down by `lsb`. */
  lemma FieldGetOnGenMask(msb: bv32, lsb: bv32, x: bv32)
    requires lsb <= msb < 32 && msb - lsb < 31
    requires GenMask(msb, lsb) != 0 && LowBit(GenMask(msb, lsb)) == lsb
    ensures FieldGet(GenMask(msb, lsb), x) == ShiftRight(x & GenMask(msb, lsb), lsb)
  {
  }

  /** FIELD_PREP on a contiguous field is a left shift by the field's position. */
  lemma FieldPrepIsShift(msb: bv32, lsb: bv32, v: bv32)
    requires lsb <= msb < 32 && msb - lsb < 31
    ensures FieldPrep(GenMask(msb, lsb), v) == v << lsb
  {
    LowBitOfGenMask(msb, lsb);
    FieldPrepOnGenMask(msb, lsb, v);
    assert ShiftLeft(v, lsb) == v << lsb;
  }

  /** A value that fits the field's width, shifted to the field's position, has no bit outside the field. */
  lemma ShiftInsideMask(msb: bv32, lsb: bv32, v: bv32)
    requires lsb <= msb < 32 && msb - lsb < 31
    requires v < Bit(msb + 1 - lsb)
    ensures ShiftLeft(v, lsb) & !GenMask(msb, lsb) == 0
  {
  }

  /** A value that fits the field's width, shifted to the field's position, masked and shifted back, is itself. */
  lemma ShiftBackFromMask(msb: bv32, lsb: bv32, v: bv32)
    requires lsb <= msb < 32 && msb - lsb < 31
    requires v < Bit(msb + 1 - lsb)
    ensures ShiftRight(ShiftLeft(v, lsb) & GenMask(msb, lsb), lsb) == v
  {
  }

  /** Masking FIELD_PREP's result inside the field is masking the shifted value. */
  lemma PrepInsideOnGenMask(msb: bv32, lsb: bv32, v: bv32)
    requires lsb <= msb < 32 && msb - lsb < 31
    requires FieldPrep(GenMask(msb, lsb), v) == ShiftLeft(v, lsb)
    ensures FieldPrep(GenMask(msb, lsb), v) & GenMask(msb, lsb) == ShiftLeft(v, lsb) & GenMask(msb, lsb)
  {
  }

  /** Masking FIELD_PREP's result outside the field is masking the shifted value. */
  lemma PrepOutsideOnGenMask(msb: bv32, lsb: bv32, v: bv32)
    requires lsb <= msb < 32 && msb - lsb < 31
    requires FieldPrep(GenMask(msb, lsb), v) == ShiftLeft(v, lsb)
    ensures FieldPrep(GenMask(msb, lsb), v) & !GenMask(msb, lsb) == ShiftLeft(v, lsb) & !GenMask(msb, lsb)
  {
  }

  /** FIELD_PREP of a value that fits the field sets no bit outside GENMASK(msb, lsb). */
  lemma FieldPrepInside(msb: bv32, lsb: bv32, v: bv32)
    requires lsb <= msb < 32 && msb - lsb < 31
    requires v < Bit(msb + 1 - lsb)
    ensures FieldPrep(GenMask(msb, lsb), v) & !GenMask(msb, lsb) == 0
  {
    LowBitOfGenMask(msb, lsb);
    ShiftInsideMask(msb, lsb, v);
    FieldPrepOnGenMask(msb, lsb, v);
    PrepOutsideOnGenMask(msb, lsb, v);
  }

  /** FIELD_GET recovers a value that fits the field from its FIELD_PREP. */
  lemma FieldGetOfPrep(msb: bv32, lsb: bv32, v: bv32)
    requires lsb <= msb < 32 && msb - lsb < 31
    requires v < Bit(msb + 1 - lsb)
    ensures FieldGet(GenMask(msb, lsb), FieldPrep(GenMask(msb, lsb), v)) == v
  {
    LowBitOfGenMask(msb, lsb);
    ShiftBackFromMask(msb, lsb, v);
    FieldPrepOnGenMask(msb, lsb, v);
    FieldGetOnGenMask(msb, lsb, FieldPrep(GenMask(msb, lsb), v));
    PrepInsideOnGenMask(msb, lsb, v);
  }

  /**
   * FIELD_PREP and FIELD_GET on GENMASK(msb, lsb) are inverse: a value that
   * fits the field's width lands inside the field and comes back unchanged.
   */
  lemma FieldRoundTrip(msb: bv32, lsb: bv32, v: bv32)
    requires lsb <= msb < 32 && msb - lsb < 31
    requires v < 1 << (msb + 1 - lsb)
    ensures FieldPrep(GenMask(msb, lsb), v) & !GenMask(msb, lsb) == 0
    ensures FieldGet(GenMask(msb, lsb), FieldPrep(GenMask(msb, lsb), v)) == v
  {
    assert Bit(msb + 1 - lsb) == 1 << (msb + 1 - lsb);
    FieldPrepInside(msb, lsb, v);
    FieldGetOfPrep(msb, lsb, v);
  }

  /** FIELD_GET of the device-id field GENMASK(7, 0) is the low byte, and undoes FIELD_PREP. */
  lemma DeviceIdField(x: bv32)
    ensures GenMask(7, 0) == 0xff
    ensures FieldGet(GenMask(7, 0), x) == x & 0xff
    ensures x < 0x100 ==> FieldGet(GenMask(7, 0), FieldPrep(GenMask(7, 0), x)) == x
  {
    assert GenMask(7, 0) == 0xff;
  }

  /** FIELD_GET undoes FIELD_PREP for the section-descriptor domain field GENMASK(8, 5). */
  lemma DomainField(x: bv32)
    requires x < 0x10
    ensures GenMask(8, 5) == 0x1e0
    ensures FieldPrep(GenMask(8, 5), x) & !0x1e0 == 0
    ensures FieldGet(GenMask(8, 5), FieldPrep(GenMask(8, 5), x)) == x
  {
    assert GenMask(8, 5) == 0x1e0;
  }

  // Alignment (utils.h ALIGN_UP / ALIGN_DOWN) on 32-bit unsigned values.

  const U32: nat := 0x1_0000_0000

  /** `a` is a power of two that a 32-bit unsigned value can hold. */
  predicate IsPow2(a: nat)
  {
    a in {1, 2, 4, 8, 16, 32, 64, 128, 256, 512, 1024, 2048, 4096, 8192, 16384, 32768,
          0x1_0000, 0x2_0000, 0x4_0000, 0x8_0000, 0x10_0000, 0x20_0000, 0x40_0000, 0x80_0000,
          0x100_0000, 0x200_0000, 0x400_0000, 0x800_0000,
          0x1000_0000, 0x2000_0000, 0x4000_0000, 0x8000_0000}
  }

  /** ALIGN_DOWN(x, a): `x` with the bits below `a` cleared. */
  function AlignDown(x: nat, a: nat): nat
    requires IsPow2(a)
  {
    x - x % a
  }

  /** ALIGN_UP(x, a), with the 32-bit wrap of `x + (a - 1)`. */
  function AlignUp(x: nat, a: nat): nat
    requires IsPow2(a) && x < U32
  {
    AlignDown((x + (a - 1)) % U32, a)
  }

  lemma MulAtLeast(k: int, a: int)
    requires k >= 1 && a > 0
    ensures k * a >= a
  {
    assert k * a == (k - 1) * a + a;
    assert (k - 1) * a >= 0;
  }

  /** Euclidean division is unique: `q * a + r` with `0 <= r < a` has quotient `q` and remainder `r`. */
  lemma DivModUnique(x: int, a: int, q: int, r: int)
    requires a > 0 && x == q * a + r && 0 <= r < a
    ensures x % a == r && x / a == q
  {
    var d, m := x / a, x % a;
    assert (q - d) * a == m - r;
    if q > d {
      MulAtLeast(q - d, a);
    } else if q < d {
      assert (d - q) * a == r - m;
      MulAtLeast(d - q, a);
    }
  }

  /** Rounding down to a multiple of `a > 0` loses less than `a`. */
  lemma RoundDown(x: nat, a: nat)
    requires a > 0
    ensures x - x % a <= x && x % a < a
    ensures (x - x % a) % a == 0
  {
    DivModUnique(x - x % a, a, x / a, 0);
  }

  /** A multiple of `a > 0` plus `r < a` leaves remainder `r`. */
  lemma MultiplePlus(x: nat, a: nat, r: nat)
    requires a > 0 && x % a == 0 && r < a
    ensures (x + r) % a == r
  {
    DivModUnique(x + r, a, x / a, r);
  }

  lemma Pow2Positive(a: nat)
    requires IsPow2(a)
    ensures a > 0
  {
  }

  /** ALIGN_DOWN rounds down by less than `a` to a multiple of `a`. */
  lemma AlignDownBounds(x: nat, a: nat)
    requires IsPow2(a)
    ensures AlignDown(x, a) <= x && x - AlignDown(x, a) < a
    ensures AlignDown(x, a) % a == 0
  {
    Pow2Positive(a);
    RoundDown(x, a);
  }

  /** Without 32-bit overflow ALIGN_UP rounds up by less than `a`. */
  lemma AlignUpBounds(x: nat, a: nat)
    requires IsPow2(a) && x + (a - 1) < U32
    ensures x <= AlignUp(x, a) && AlignUp(x, a) - x < a
  {
    Pow2Positive(a);
    var y := x + (a - 1);
    DivModUnique(y, U32, 0, y);
    assert AlignUp(x, a) == AlignDown(y, a);
    AlignDownBounds(y, a);
  }

  /** ALIGN_UP yields a multiple of `a`, wrapped or not. */
  lemma AlignUpAligned(x: nat, a: nat)
    requires IsPow2(a) && x < U32
    ensures AlignUp(x, a) % a == 0
  {
    AlignDownBounds((x + (a - 1)) % U32, a);
  }

  /** A multiple of `a` is its own ALIGN_UP and ALIGN_DOWN. */
  lemma AlignedFixed(x: nat, a: nat)
    requires IsPow2(a) && x < U32 && x % a == 0
    ensures AlignDown(x, a) == x
    ensures x + (a - 1) < U32 ==> AlignUp(x, a) == x
  {
    Pow2Positive(a);
    if x + (a - 1) < U32 {
      var y := x + (a - 1);
      assert y % U32 == y;
      MultiplePlus(x, a, a - 1);
    }
  }

  // STACK_ALIGN(type, name, cnt, alignment)

  /** Length in bytes of the backing array STACK_ALIGN declares for `n` bytes of elements. */
  function StackAlignLength(n: nat, align: nat): nat
    requires IsPow2(align)
  {
    n + align + (if n % align > 0 then align - n % align else 0)
  }

  /** The aligned pointer STACK_ALIGN derives from the backing array's address `base`. */
  function StackAlignPointer(base: nat, align: nat): nat
    requires IsPow2(align)
  {
    base + (align - base % align)
  }

  /** Moving up to the next multiple of `a > 0` strictly above `x`. */
  lemma NextMultiple(x: nat, a: nat)
    requires a > 0
    ensures (x + (a - x % a)) % a == 0
  {
    RoundDown(x, a);
    MultiplePlus(x - x % a, a, 0);
    DivModUnique(x + (a - x % a), a, x / a + 1, 0);
  }

  /**
   * The STACK_ALIGN pointer is aligned, lies past the start of the backing
   * array, and its `n` bytes of elements end within it.
   */
  lemma StackAlignFits(base: nat, n: nat, align: nat)
    requires IsPow2(align)
    ensures StackAlignPointer(base, align) % align == 0
    ensures base < StackAlignPointer(base, align)
    ensures StackAlignPointer(base, align) + n <= base + StackAlignLength(n, align)
  {
    Pow2Positive(align);
    NextMultiple(base, align);
  }
}
