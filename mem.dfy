/**
 * Byte-addressed memory and the little-endian units of 8, 16, 32 and 64 bits
 * that the monitor's memory primitives read and write (utils.h, utils.c).
 *
 * Memory is a sequence of bytes, byte `a` at index `a`: the address space of
 * the model is this one block, and an access that reaches past its end is
 * not mapped and faults.
 */
module Mem {

  datatype Width = W8 | W16 | W32 | W64

  type Memory = seq<bv8>

  /** Number of bytes in a unit of width `w`. */
  function Bytes(w: Width): (n: nat)
    ensures 1 <= n <= 8
  {
    match w
    case W8 => 1
    case W16 => 2
    case W32 => 4
    case W64 => 8
  }

  /** All ones in a unit of width `w`: the value a faulting read yields under GUARD_MARK. */
  function Ones(w: Width): bv64
  {
    match w
    case W8 => 0xff
    case W16 => 0xffff
    case W32 => 0xffff_ffff
    case W64 => 0xffff_ffff_ffff_ffff
  }

  /** Number of bits in a unit of width `w`. */
  function WidthBits(w: Width): bv64
  {
    match w
    case W8 => 8
    case W16 => 16
    case W32 => 32
    case W64 => 64
  }

  /** The C conversion of a 64-bit value to the unsigned type of width `w`. */
  function Trunc(w: Width, v: bv64): bv64
  {
    v & Ones(w)
  }

  /** No bit of `v` lies outside `m`. */
  predicate Within(v: bv64, m: bv64)
  {
    v & !m == 0
  }

  /** `v` is a value of the unsigned type of width `w`. */
  predicate Fits(w: Width, v: bv64)
  {
    Within(v, Ones(w))
  }

  /** Truncation yields a value of the width, and leaves such a value alone. */
  lemma TruncFits(w: Width, v: bv64)
    ensures Fits(w, Trunc(w, v))
    ensures Fits(w, v) ==> Trunc(w, v) == v
  {
  }

  // ---------------------------------------------------------------------------
  // Little-endian encoding of a unit

  /** The low byte of `v`: the C conversion to uint8_t. */
  function LowByte(v: bv64): bv8
  {
    (v & 0xff) as bv8
  }

  /** A byte widened to 64 bits. */
  function Widen(b: bv8): bv64
  {
    b as bv64
  }

  /** The bytes a store of width `w` puts in memory, lowest address first (ARM is little-endian). */
  function Encode(w: Width, v: bv64): (bs: seq<bv8>)
    ensures |bs| == Bytes(w)
  {
    match w
    case W8 => [LowByte(v)]
    case W16 => [LowByte(v), LowByte(v >> 8)]
    case W32 => [LowByte(v), LowByte(v >> 8), LowByte(v >> 16), LowByte(v >> 24)]
    case W64 =>
      [LowByte(v), LowByte(v >> 8), LowByte(v >> 16), LowByte(v >> 24),
       LowByte(v >> 32), LowByte(v >> 40), LowByte(v >> 48), LowByte(v >> 56)]
  }

  /** The value a load of width `w` reads from the bytes `bs`, lowest address first. */
  function Decode(w: Width, bs: seq<bv8>): bv64
    requires |bs| == Bytes(w)
  {
    match w
    case W8 => Widen(bs[0])
    case W16 => Widen(bs[0]) | (Widen(bs[1]) << 8)
    case W32 => Widen(bs[0]) | (Widen(bs[1]) << 8) | (Widen(bs[2]) << 16) | (Widen(bs[3]) << 24)
    case W64 =>
      Widen(bs[0]) | (Widen(bs[1]) << 8) | (Widen(bs[2]) << 16) | (Widen(bs[3]) << 24) |
      (Widen(bs[4]) << 32) | (Widen(bs[5]) << 40) | (Widen(bs[6]) << 48) | (Widen(bs[7]) << 56)
  }

  // Each property of the encoding is proved width by width; the lemmas for
  // one width take `w` with `requires w == ...` so that the general lemma
  // only has to pick the right one.

  /** A decoded unit is a value of its width. */
  lemma DecodeFits(w: Width, bs: seq<bv8>)
    requires |bs| == Bytes(w)
    ensures Fits(w, Decode(w, bs))
  {
    match w
    case W8 => DecodeFitsAt8(w, bs);
    case W16 => DecodeFitsAt16(w, bs);
    case W32 => DecodeFitsAt32(w, bs);
    case W64 => DecodeFitsAt64(w, bs);
  }

  /** Decoding an encoded unit gives back the value truncated to the unit's width. */
  lemma DecodeEncode(w: Width, v: bv64)
    ensures Decode(w, Encode(w, v)) == Trunc(w, v)
  {
    match w
    case W8 => DecodeEncodeAt8(w, v);
    case W16 => DecodeEncodeAt16(w, v);
    case W32 => DecodeEncodeAt32(w, v);
    case W64 => DecodeEncodeAt64(w, v);
  }

  /** Encoding the value of a unit's bytes gives back those bytes. */
  lemma EncodeDecode(w: Width, bs: seq<bv8>)
    requires |bs| == Bytes(w)
    ensures Encode(w, Decode(w, bs)) == bs
  {
    match w
    case W8 => EncodeDecodeAt8(w, bs);
    case W16 => EncodeDecodeAt16(w, bs);
    case W32 => EncodeDecodeAt32(w, bs);
    case W64 => EncodeDecodeAt64(w, bs);
  }

  lemma DecodeFitsAt8(w: Width, bs: seq<bv8>)
    requires w == W8 && |bs| == Bytes(w)
    ensures Fits(w, Decode(w, bs))
  {
  }

  lemma DecodeEncodeAt8(w: Width, v: bv64)
    requires w == W8
    ensures Decode(w, Encode(w, v)) == Trunc(w, v)
  {
  }

  lemma EncodeDecodeAt8(w: Width, bs: seq<bv8>)
    requires w == W8 && |bs| == Bytes(w)
    ensures Encode(w, Decode(w, bs)) == bs
  {
    assert bs == [bs[0]];
    EncodeDecode8(bs[0]);
  }

  lemma EncodeDecode8(b0: bv8)
    ensures Encode(W8, Decode(W8, [b0])) == [b0]
  {
  }

  lemma DecodeFitsAt16(w: Width, bs: seq<bv8>)
    requires w == W16 && |bs| == Bytes(w)
    ensures Fits(w, Decode(w, bs))
  {
  }

  lemma DecodeEncodeAt16(w: Width, v: bv64)
    requires w == W16
    ensures Decode(w, Encode(w, v)) == Trunc(w, v)
  {
  }

  lemma EncodeDecodeAt16(w: Width, bs: seq<bv8>)
    requires w == W16 && |bs| == Bytes(w)
    ensures Encode(w, Decode(w, bs)) == bs
  {
    assert bs == [bs[0], bs[1]];
    EncodeDecode16(bs[0], bs[1]);
  }

  lemma EncodeDecode16(b0: bv8, b1: bv8)
    ensures Encode(W16, Decode(W16, [b0, b1])) == [b0, b1]
  {
  }

  lemma DecodeFitsAt32(w: Width, bs: seq<bv8>)
    requires w == W32 && |bs| == Bytes(w)
    ensures Fits(w, Decode(w, bs))
  {
  }

  lemma DecodeEncodeAt32(w: Width, v: bv64)
    requires w == W32
    ensures Decode(w, Encode(w, v)) == Trunc(w, v)
  {
  }

  lemma EncodeDecodeAt32(w: Width, bs: seq<bv8>)
    requires w == W32 && |bs| == Bytes(w)
    ensures Encode(w, Decode(w, bs)) == bs
  {
    assert bs == [bs[0], bs[1], bs[2], bs[3]];
    EncodeDecode32(bs[0], bs[1], bs[2], bs[3]);
  }

  lemma EncodeDecode32(b0: bv8, b1: bv8, b2: bv8, b3: bv8)
    ensures Encode(W32, Decode(W32, [b0, b1, b2, b3])) == [b0, b1, b2, b3]
  {
  }

  lemma DecodeFitsAt64(w: Width, bs: seq<bv8>)
    requires w == W64 && |bs| == Bytes(w)
    ensures Fits(w, Decode(w, bs))
  {
  }

  lemma DecodeEncodeAt64(w: Width, v: bv64)
    requires w == W64
    ensures Decode(w, Encode(w, v)) == Trunc(w, v)
  {
  }

  lemma EncodeDecodeAt64(w: Width, bs: seq<bv8>)
    requires w == W64 && |bs| == Bytes(w)
    ensures Encode(w, Decode(w, bs)) == bs
  {
    assert bs == [bs[0], bs[1], bs[2], bs[3], bs[4], bs[5], bs[6], bs[7]];
    EncodeDecode64(bs[0], bs[1], bs[2], bs[3], bs[4], bs[5], bs[6], bs[7]);
  }

  lemma EncodeDecode64(b0: bv8, b1: bv8, b2: bv8, b3: bv8, b4: bv8, b5: bv8, b6: bv8, b7: bv8)
    ensures Encode(W64, Decode(W64, [b0, b1, b2, b3, b4, b5, b6, b7])) == [b0, b1, b2, b3, b4, b5, b6, b7]
  {
  }

  // ---------------------------------------------------------------------------
  // Units in memory

  /** Every byte of the unit of width `w` at `a` is mapped. */
  predicate Mapped(mem: Memory, a: nat, w: Width)
  {
    a + Bytes(w) <= |mem|
  }

  /** Every byte in [a, a + len) is mapped. */
  predicate MappedRange(mem: Memory, a: nat, len: nat)
  {
    len == 0 || a + len <= |mem|
  }

  /** Memories that agree on every byte of a range agree on its slice. */
  lemma SliceAgree(m1: Memory, m2: Memory, a: nat, len: nat)
    requires a + len <= |m1| && a + len <= |m2|
    requires forall i :: a <= i < a + len ==> m1[i] == m2[i]
    ensures m1[a..a + len] == m2[a..a + len]
  {
    var s1, s2 := m1[a..a + len], m2[a..a + len];
    forall i | 0 <= i < len
      ensures s1[i] == s2[i]
    {
      assert s1[i] == m1[a + i] && s2[i] == m2[a + i];
    }
  }

  /** The value of the unit of width `w` at `a` (a `readN`). */
  function ReadUnit(mem: Memory, a: nat, w: Width): (v: bv64)
    requires Mapped(mem, a, w)
    ensures Fits(w, v)
  {
    DecodeFits(w, mem[a..a + Bytes(w)]);
    Decode(w, mem[a..a + Bytes(w)])
  }

  /** Memory after the bytes `bs` have been stored from address `a` on. */
  function Store(mem: Memory, a: nat, bs: seq<bv8>): (r: Memory)
    requires a + |bs| <= |mem|
    ensures |r| == |mem|
  {
    seq(|mem|, i requires 0 <= i < |mem| => if a <= i < a + |bs| then bs[i - a] else mem[i])
  }

  /** Memory after storing `v` truncated to width `w` at `a` (a `writeN`). */
  function WriteUnit(mem: Memory, a: nat, w: Width, v: bv64): (r: Memory)
    requires Mapped(mem, a, w)
    ensures |r| == |mem|
  {
    Store(mem, a, Encode(w, v))
  }

  /** A store changes the stored bytes and no other. */
  lemma StoreFrame(mem: Memory, a: nat, bs: seq<bv8>)
    requires a + |bs| <= |mem|
    ensures Store(mem, a, bs)[a..a + |bs|] == bs
    ensures forall i :: 0 <= i < |mem| && !(a <= i < a + |bs|) ==> Store(mem, a, bs)[i] == mem[i]
  {
    var r := Store(mem, a, bs);
    assert forall i :: 0 <= i < |bs| ==> r[a..a + |bs|][i] == bs[i];
  }

  /** A store of a unit changes the bytes of that unit and no other. */
  lemma WriteUnitFrame(mem: Memory, a: nat, w: Width, v: bv64)
    requires Mapped(mem, a, w)
    ensures WriteUnit(mem, a, w, v)[a..a + Bytes(w)] == Encode(w, v)
    ensures forall i :: 0 <= i < |mem| && !(a <= i < a + Bytes(w)) ==> WriteUnit(mem, a, w, v)[i] == mem[i]
  {
    StoreFrame(mem, a, Encode(w, v));
  }

  /** Over ordinary memory a same-width write followed by a read returns the written value, truncated. */
  lemma ReadAfterWrite(mem: Memory, a: nat, w: Width, v: bv64)
    requires Mapped(mem, a, w)
    ensures Mapped(WriteUnit(mem, a, w, v), a, w)
    ensures ReadUnit(WriteUnit(mem, a, w, v), a, w) == Trunc(w, v)
  {
    WriteUnitFrame(mem, a, w, v);
    DecodeEncode(w, v);
  }

  /** A unit whose bytes are the encoding of `v` reads as `v` cut to the width. */
  lemma ReadEncoded(mem: Memory, a: nat, w: Width, v: bv64, e: seq<bv8>)
    requires e == Encode(w, v) && a + |e| <= |mem| && mem[a..a + |e|] == e
    ensures Mapped(mem, a, w) && ReadUnit(mem, a, w) == Trunc(w, v)
  {
    DecodeEncode(w, v);
  }

  /** Storing back the value just read leaves memory as it was. */
  lemma WriteBackRead(mem: Memory, a: nat, w: Width)
    requires Mapped(mem, a, w)
    ensures WriteUnit(mem, a, w, ReadUnit(mem, a, w)) == mem
  {
    var bs := mem[a..a + Bytes(w)];
    assert Encode(w, ReadUnit(mem, a, w)) == bs by {
      EncodeDecode(w, bs);
    }
    var r := WriteUnit(mem, a, w, ReadUnit(mem, a, w));
    forall i | 0 <= i < |mem|
      ensures r[i] == mem[i]
    {
      if a <= i < a + Bytes(w) {
        assert r[i] == bs[i - a];
      }
    }
  }

  // ---------------------------------------------------------------------------
  // Read-modify-write values (setN, clearN, maskN)
  //
  // SetBits and ClearBits work under any mask `m`; the width-indexed
  // functions use them with `m == Ones(w)`.

  /** `a` OR `b`, kept within `m`: holds every bit of `b` inside `m`. */
  function SetBits(a: bv64, b: bv64, m: bv64): (r: bv64)
    ensures Within(r, m) && Within(b & m, r)
  {
    AndWithin(a | b, m);
    OrKeeps(a, b, m);
    (a | b) & m
  }

  /** `a` AND NOT `b`, kept within `m`: holds no bit of `b` and none that `a` lacks. */
  function ClearBits(a: bv64, b: bv64, m: bv64): (r: bv64)
    ensures Within(r, m) && Within(r, a) && r & b == 0
  {
    AndWithin(a & !b, m);
    AndNotWithin(a, b, m);
    AndNotClears(a, b, m);
    (a & !b) & m
  }

  lemma AndWithin(x: bv64, m: bv64)
    ensures Within(x & m, m)
  {
  }

  lemma OrKeeps(a: bv64, b: bv64, m: bv64)
    ensures Within(b & m, (a | b) & m)
  {
  }

  lemma AndNotWithin(a: bv64, b: bv64, m: bv64)
    ensures Within((a & !b) & m, a)
  {
  }

  lemma AndNotClears(a: bv64, b: bv64, m: bv64)
    ensures ((a & !b) & m) & b == 0
  {
  }

  lemma OrAbsorbed(m: bv64, b: bv64)
    ensures (m | b) & m == m
  {
  }

  lemma AbsorbMask(x: bv64, b: bv64, m: bv64)
    ensures (x | b) & m == ((x & m) | b) & m
  {
  }

  lemma SetAgain(a: bv64, b: bv64, m: bv64)
    ensures (((a | b) & m) | b) & m == (a | b) & m
  {
  }

  lemma NothingToClear(a: bv64, b: bv64, m: bv64)
    ensures ((a & !0) | b) & m == (a | b) & m
  {
  }

  lemma NothingToSet(a: bv64, b: bv64, m: bv64)
    ensures ((a & !b) | 0) & m == (a & !b) & m
  {
  }

  /** The value `setN` stores and returns: every requested bit of the width is set. */
  function SetValue(w: Width, cur: bv64, v: bv64): (r: bv64)
    ensures Fits(w, r)
    ensures Within(Trunc(w, v), r)
  {
    SetBits(cur, v, Ones(w))
  }

  /** The value `clearN` stores and returns: no requested bit survives and none is added. */
  function ClearValue(w: Width, cur: bv64, v: bv64): (r: bv64)
    ensures Fits(w, r)
    ensures r & v == 0 && Within(r, cur)
  {
    ClearBits(cur, v, Ones(w))
  }

  /** The value `maskN` stores and returns, in one step (see MaskClearsThenSets). */
  function MaskValue(w: Width, cur: bv64, clr: bv64, bits: bv64): bv64
  {
    ((cur & !clr) | bits) & Ones(w)
  }

  /** `maskN` stores the current unit with `clr` cleared, then `bits` set. */
  lemma MaskClearsThenSets(w: Width, cur: bv64, clr: bv64, bits: bv64)
    ensures MaskValue(w, cur, clr, bits) == SetValue(w, ClearValue(w, cur, clr), bits)
  {
    ClearThenSet(cur, clr, bits, Ones(w));
  }

  /** Clearing `clr` and then setting `bits` under `m` is one OR-after-AND-NOT under `m`. */
  lemma ClearThenSet(a: bv64, clr: bv64, bits: bv64, m: bv64)
    ensures ((a & !clr) | bits) & m == SetBits(ClearBits(a, clr, m), bits, m)
  {
    var x := a & !clr;
    assert ClearBits(a, clr, m) == x & m;
    assert SetBits(x & m, bits, m) == ((x & m) | bits) & m;
    AbsorbMask(x, bits, m);
  }

  /** Setting the same bits twice is setting them once. */
  lemma SetIdempotent(w: Width, cur: bv64, v: bv64)
    ensures SetValue(w, SetValue(w, cur, v), v) == SetValue(w, cur, v)
  {
    SetAgain(cur, v, Ones(w));
  }

  /** `maskN` with nothing to clear is `setN`; with nothing to set it is `clearN`. */
  lemma MaskSpecialCases(w: Width, cur: bv64, clr: bv64, bits: bv64)
    ensures MaskValue(w, cur, 0, bits) == SetValue(w, cur, bits)
    ensures MaskValue(w, cur, clr, 0) == ClearValue(w, cur, clr)
  {
    NothingToClear(cur, bits, Ones(w));
    NothingToSet(cur, clr, Ones(w));
  }

  // ---------------------------------------------------------------------------
  // Bulk fill and copy (memsetN, memcpyN)

  // The loops step through a buffer one unit at a time; their lemmas are
  // stated for a unit of any size `b`, which is `Bytes(w)` for the loops.

  /** Number of bytes in `n` units of `b` bytes. */
  function Span(b: nat, n: nat): nat
  {
    if n == 0 then 0 else Span(b, n - 1) + b
  }

  lemma {:induction false} SpanIsProduct(b: nat, n: nat)
    ensures Span(b, n) == n * b
  {
    if n > 0 {
      SpanIsProduct(b, n - 1);
    }
  }

  lemma {:induction false} SpanMonotone(b: nat, i: nat, n: nat)
    requires i <= n
    ensures Span(b, i) <= Span(b, n)
    decreases n
  {
    if i < n {
      SpanMonotone(b, i, n - 1);
    }
  }

  lemma {:induction false} SpanFront(b: nat, n: nat)
    ensures Span(b, n + 1) == b + Span(b, n)
  {
    if n > 0 {
      SpanFront(b, n - 1);
    }
  }

  /** Address of unit `i` of `b` bytes in a buffer at `a`. */
  function UnitAddr(a: nat, b: nat, i: nat): nat
  {
    a + Span(b, i)
  }

  /** Unit `i` < `n` of a buffer of `n` units lies inside the buffer. */
  lemma UnitInside(a: nat, b: nat, n: nat, i: nat)
    requires i < n
    ensures a <= UnitAddr(a, b, i) && UnitAddr(a, b, i) + b <= a + Span(b, n)
  {
    SpanMonotone(b, i + 1, n);
  }

  /** The byte ranges [a, a + len) and [c, c + len) do not overlap. */
  predicate Disjoint(a: nat, c: nat, len: nat)
  {
    a + len <= c || c + len <= a
  }

  /**
   * Memory after memsetN's loop has stored `n` units holding `v`
   * from `dst` upwards, in increasing address order.
   */
  function Fill(mem: Memory, dst: nat, w: Width, v: bv64, n: nat): (r: Memory)
    requires MappedRange(mem, dst, Span(Bytes(w), n))
    ensures |r| == |mem|
  {
    Repeat(mem, dst, Encode(w, v), n)
  }

  /** Memory after the unit bytes `bs` have been stored `n` times from `dst` upwards. */
  function Repeat(mem: Memory, dst: nat, bs: seq<bv8>, n: nat): (r: Memory)
    requires |bs| > 0 && MappedRange(mem, dst, Span(|bs|, n))
    ensures |r| == |mem|
  {
    if n == 0 then mem
    else
      UnitInside(dst, |bs|, n, n - 1);
      Store(Repeat(mem, dst, bs, n - 1), UnitAddr(dst, |bs|, n - 1), bs)
  }

  /**
   * Memory after the `len` bytes at `s` have been read and then written
   * from `d` on: every byte of the destination receives the byte the source
   * held before the write, even where the two overlap.
   */
  function Move(mem: Memory, d: nat, s: nat, len: nat): (r: Memory)
    requires d + len <= |mem| && s + len <= |mem|
    ensures |r| == |mem|
  {
    seq(|mem|, i requires 0 <= i < |mem| => if d <= i < d + len then mem[s + (i - d)] else mem[i])
  }

  /**
   * Memory after memcpyN's loop has copied `n` units of `b` bytes from `src`
   * to `dst`. Each unit carries the bytes its source holds at that moment,
   * after the units before it were copied; `CopyUnitIsMove` shows that this
   * is the store of the unit value read.
   */
  function Copy(mem: Memory, dst: nat, src: nat, b: nat, n: nat): (r: Memory)
    requires b > 0 && MappedRange(mem, dst, Span(b, n)) && MappedRange(mem, src, Span(b, n))
    ensures |r| == |mem|
  {
    if n == 0 then mem
    else
      UnitInside(dst, b, n, n - 1);
      UnitInside(src, b, n, n - 1);
      Move(Copy(mem, dst, src, b, n - 1), UnitAddr(dst, b, n - 1), UnitAddr(src, b, n - 1), b)
  }

  /** Storing a copy of the `len` bytes at `s` to `d` is the move of those bytes. */
  lemma StoreSliceIsMove(mem: Memory, d: nat, s: nat, len: nat)
    requires d + len <= |mem| && s + len <= |mem|
    ensures Store(mem, d, mem[s..s + len]) == Move(mem, d, s, len)
  {
    var r, m := Store(mem, d, mem[s..s + len]), Move(mem, d, s, len);
    forall i | 0 <= i < |mem|
      ensures r[i] == m[i]
    {
      if d <= i < d + len {
        assert r[i] == mem[s..s + len][i - d];
      }
    }
  }

  /** Copying one unit by value (a `readN` then a `writeN`) moves exactly the source unit's bytes. */
  lemma CopyUnitIsMove(mem: Memory, d: nat, s: nat, w: Width)
    requires Mapped(mem, s, w) && Mapped(mem, d, w)
    ensures WriteUnit(mem, d, w, ReadUnit(mem, s, w)) == Move(mem, d, s, Bytes(w))
  {
    var bs := mem[s..s + Bytes(w)];
    EncodeDecode(w, bs);
    StoreSliceIsMove(mem, d, s, Bytes(w));
  }

  /** memsetN leaves every byte outside the `n` units it writes as it was. */
  lemma {:induction false} FillFrame(mem: Memory, dst: nat, bs: seq<bv8>, n: nat, i: nat)
    requires |bs| > 0 && MappedRange(mem, dst, Span(|bs|, n))
    requires i < |mem| && !(dst <= i < dst + Span(|bs|, n))
    ensures Repeat(mem, dst, bs, n)[i] == mem[i]
  {
    if n > 0 {
      UnitInside(dst, |bs|, n, n - 1);
      FillFrame(mem, dst, bs, n - 1, i);
    }
  }

  /** After memsetN byte `k` of each of the `n` units from `dst` up is byte `k` of the unit's bytes. */
  lemma {:induction false} FillContents(mem: Memory, dst: nat, bs: seq<bv8>, n: nat, j: nat, k: nat)
    requires |bs| > 0 && MappedRange(mem, dst, Span(|bs|, n)) && j < n && k < |bs|
    ensures UnitAddr(dst, |bs|, j) + |bs| <= |mem|
    ensures Repeat(mem, dst, bs, n)[UnitAddr(dst, |bs|, j) + k] == bs[k]
  {
    UnitInside(dst, |bs|, n, n - 1);
    UnitInside(dst, |bs|, n, j);
    var u := UnitAddr(dst, |bs|, n - 1);
    var p := UnitAddr(dst, |bs|, j) + k;
    var prev := Repeat(mem, dst, bs, n - 1);
    assert Repeat(mem, dst, bs, n) == Store(prev, u, bs);
    if j < n - 1 {
      FillContents(mem, dst, bs, n - 1, j, k);
      UnitInside(dst, |bs|, n - 1, j);
      assert !(u <= p < u + |bs|);
    } else {
      assert p - u == k;
    }
  }

  /** After memsetN each of the `n` units it wrote holds exactly the unit's bytes. */
  lemma FillUnit(mem: Memory, dst: nat, bs: seq<bv8>, n: nat, j: nat)
    requires |bs| > 0 && MappedRange(mem, dst, Span(|bs|, n)) && j < n
    ensures UnitAddr(dst, |bs|, j) + |bs| <= |mem|
    ensures Repeat(mem, dst, bs, n)[UnitAddr(dst, |bs|, j)..UnitAddr(dst, |bs|, j) + |bs|] == bs
  {
    var r, a := Repeat(mem, dst, bs, n), UnitAddr(dst, |bs|, j);
    UnitInside(dst, |bs|, n, j);
    forall k | 0 <= k < |bs|
      ensures r[a..a + |bs|][k] == bs[k]
    {
      FillContents(mem, dst, bs, n, j, k);
    }
  }

  /** After memsetN every unit it wrote reads back as `v` cut to the width. */
  lemma FillReadsBack(mem: Memory, dst: nat, w: Width, v: bv64, n: nat, j: nat)
    requires MappedRange(mem, dst, Span(Bytes(w), n)) && j < n
    ensures Mapped(Fill(mem, dst, w, v, n), UnitAddr(dst, Bytes(w), j), w)
    ensures ReadUnit(Fill(mem, dst, w, v, n), UnitAddr(dst, Bytes(w), j), w) == Trunc(w, v)
  {
    var e := Encode(w, v);
    FillUnit(mem, dst, e, n, j);
    ReadEncoded(Fill(mem, dst, w, v, n), UnitAddr(dst, |e|, j), w, v, e);
  }

  /** memcpyN leaves every byte outside the `n` destination units as it was. */
  lemma {:induction false} CopyFrame(mem: Memory, dst: nat, src: nat, b: nat, n: nat, i: nat)
    requires b > 0 && MappedRange(mem, dst, Span(b, n)) && MappedRange(mem, src, Span(b, n))
    requires i < |mem| && !(dst <= i < dst + Span(b, n))
    ensures Copy(mem, dst, src, b, n)[i] == mem[i]
  {
    if n > 0 {
      UnitInside(dst, b, n, n - 1);
      UnitInside(src, b, n, n - 1);
      CopyFrame(mem, dst, src, b, n - 1, i);
    }
  }

  /** For buffers that do not overlap, memcpyN makes each destination byte equal the source byte at the same offset. */
  lemma {:induction false} CopyContents(mem: Memory, dst: nat, src: nat, b: nat, n: nat, i: nat)
    requires b > 0 && MappedRange(mem, dst, Span(b, n)) && MappedRange(mem, src, Span(b, n))
    requires Disjoint(dst, src, Span(b, n)) && dst <= i < dst + Span(b, n)
    ensures Copy(mem, dst, src, b, n)[i] == mem[src + (i - dst)]
  {
    if i < dst + Span(b, n - 1) {
      UnitInside(dst, b, n, n - 1);
      UnitInside(src, b, n, n - 1);
      CopyContents(mem, dst, src, b, n - 1, i);
    } else {
      CopyLastUnit(mem, dst, src, b, n, i);
    }
  }

  /** A byte of the last unit memcpyN copies receives the source byte, which no earlier unit overwrote. */
  lemma CopyLastUnit(mem: Memory, dst: nat, src: nat, b: nat, n: nat, i: nat)
    requires b > 0 && n > 0 && MappedRange(mem, dst, Span(b, n)) && MappedRange(mem, src, Span(b, n))
    requires Disjoint(dst, src, Span(b, n)) && dst + Span(b, n - 1) <= i < dst + Span(b, n)
    ensures Copy(mem, dst, src, b, n)[i] == mem[src + (i - dst)]
  {
    var len, last := Span(b, n), Span(b, n - 1);
    assert len == last + b;
    var j := src + (i - dst);
    assert !(dst <= j < dst + last) && j < |mem|;
    CopyFrame(mem, dst, src, b, n - 1, j);
    CopyLastStep(mem, dst, src, b, n, i - dst - last);
  }

  /** Byte `k` of the last unit memcpyN copies is byte `k` of its source unit just before. */
  lemma CopyLastStep(mem: Memory, dst: nat, src: nat, b: nat, n: nat, k: nat)
    requires b > 0 && n > 0 && MappedRange(mem, dst, Span(b, n)) && MappedRange(mem, src, Span(b, n))
    requires k < b
    ensures dst + Span(b, n - 1) + k < |mem| && src + Span(b, n - 1) + k < |mem|
    ensures Copy(mem, dst, src, b, n)[dst + Span(b, n - 1) + k]
         == Copy(mem, dst, src, b, n - 1)[src + Span(b, n - 1) + k]
  {
    UnitInside(dst, b, n, n - 1);
    UnitInside(src, b, n, n - 1);
  }

  /** The number of leading units of `n` at `a`, of `b` bytes each, that are mapped. */
  function MappedUnits(mem: Memory, a: nat, b: nat, n: nat): (k: nat)
    ensures k <= n
    ensures MappedRange(mem, a, Span(b, k))
    ensures k < n ==> UnitAddr(a, b, k) + b > |mem|
    decreases n
  {
    if n == 0 || a + b > |mem| then 0
    else
      var k := MappedUnits(mem, a + b, b, n - 1);
      UnitAddrStep(a, b, k);
      SpanFront(b, k);
      1 + k
  }

  /** The number of leading units of `n` whose source and destination are both mapped. */
  function CopyableUnits(mem: Memory, dst: nat, src: nat, b: nat, n: nat): (k: nat)
    ensures k <= n
    ensures MappedRange(mem, dst, Span(b, k)) && MappedRange(mem, src, Span(b, k))
    ensures k < n ==> UnitAddr(dst, b, k) + b > |mem| || UnitAddr(src, b, k) + b > |mem|
    decreases n
  {
    if n == 0 || dst + b > |mem| || src + b > |mem| then 0
    else
      var k := CopyableUnits(mem, dst + b, src + b, b, n - 1);
      UnitAddrStep(dst, b, k);
      UnitAddrStep(src, b, k);
      SpanFront(b, k);
      1 + k
  }

  lemma {:induction false} UnitAddrStep(a: nat, b: nat, n: nat)
    ensures UnitAddr(a, b, n + 1) == UnitAddr(a + b, b, n)
  {
    if n > 0 {
      UnitAddrStep(a, b, n - 1);
    }
  }

  /** Within the first `n` units, unit `i` is mapped exactly when it lies before the first unmapped one. */
  lemma MappedUnitsAt(mem: Memory, a: nat, b: nat, n: nat, i: nat)
    requires i < n && i <= MappedUnits(mem, a, b, n)
    ensures UnitAddr(a, b, i) + b <= |mem| <==> i < MappedUnits(mem, a, b, n)
  {
    if i < MappedUnits(mem, a, b, n) {
      UnitInside(a, b, MappedUnits(mem, a, b, n), i);
    }
  }

  /** Within the first `n` units, both units `i` are mapped exactly when they lie before the first failing pair. */
  lemma CopyableUnitsAt(mem: Memory, dst: nat, src: nat, b: nat, n: nat, i: nat)
    requires i < n && i <= CopyableUnits(mem, dst, src, b, n)
    ensures UnitAddr(dst, b, i) + b <= |mem| && UnitAddr(src, b, i) + b <= |mem|
            <==> i < CopyableUnits(mem, dst, src, b, n)
  {
    var k := CopyableUnits(mem, dst, src, b, n);
    if i < k {
      UnitInside(dst, b, k, i);
      UnitInside(src, b, k, i);
    }
  }

  /** memsetN's loop body: filling one more unit stores `v` at unit `i` of the memory filled so far. */
  lemma FillNext(mem: Memory, dst: nat, w: Width, v: bv64, i: nat, n: nat)
    requires i < n && MappedRange(mem, dst, Span(Bytes(w), n))
    ensures MappedRange(mem, dst, Span(Bytes(w), i)) && MappedRange(mem, dst, Span(Bytes(w), i + 1))
    ensures Mapped(mem, UnitAddr(dst, Bytes(w), i), w)
    ensures Fill(mem, dst, w, v, i + 1) == WriteUnit(Fill(mem, dst, w, v, i), UnitAddr(dst, Bytes(w), i), w, v)
  {
    UnitInside(dst, Bytes(w), n, i);
    SpanMonotone(Bytes(w), i + 1, n);
  }

  /** memcpyN's loop body: copying one more unit writes the current value of source unit `i` to destination unit `i`. */
  lemma CopyNext(mem: Memory, dst: nat, src: nat, w: Width, i: nat, n: nat)
    requires i < n && MappedRange(mem, dst, Span(Bytes(w), n)) && MappedRange(mem, src, Span(Bytes(w), n))
    ensures MappedRange(mem, dst, Span(Bytes(w), i)) && MappedRange(mem, src, Span(Bytes(w), i))
    ensures MappedRange(mem, dst, Span(Bytes(w), i + 1)) && MappedRange(mem, src, Span(Bytes(w), i + 1))
    ensures Mapped(mem, UnitAddr(dst, Bytes(w), i), w) && Mapped(mem, UnitAddr(src, Bytes(w), i), w)
    ensures Copy(mem, dst, src, Bytes(w), i + 1) ==
      WriteUnit(Copy(mem, dst, src, Bytes(w), i), UnitAddr(dst, Bytes(w), i), w,
                ReadUnit(Copy(mem, dst, src, Bytes(w), i), UnitAddr(src, Bytes(w), i), w))
  {
    var b := Bytes(w);
    UnitInside(dst, b, n, i);
    UnitInside(src, b, n, i);
    SpanMonotone(b, i + 1, n);
    CopyUnitIsMove(Copy(mem, dst, src, b, i), UnitAddr(dst, b, i), UnitAddr(src, b, i), w);
  }
}
