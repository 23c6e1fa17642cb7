/**
 * The monitor's view of the machine while it serves requests: the global
 * fault-guard cell `exc_guard`, the fault counter `exc_count`, the
 * byte-addressed memory, and a log of every memory access together with the
 * guard that was in force when it ran.
 *
 * On top of the two raw accesses (`LoadUnit`, `StoreUnit`) sit the utils.h
 * primitives readN/writeN/setN/clearN/maskN/writereadN and the utils.c bulk
 * loops memsetN/memcpyN.
 */
module Machine {
  import opened Mem
  import opened Exception

  /** One memory access: where, how wide, a store or a load, and the guard in force. */
  datatype Touch = Touch(addr: nat, width: Width, store: bool, guard: bv32)

  /** How much a faulting access adds to exc_count: nothing when it succeeded or the fault is fatal. */
  function FaultCost(ok: bool, guard: bv32): (c: int)
    ensures c == 0 || c == 1
    ensures c == 1 <==> !ok && RecoveryFor(guard) != Fatal
  {
    if ok || RecoveryFor(guard) == Fatal then 0 else 1
  }

  /** Every access in `log` from position `from` on ran under guard `g`. */
  predicate Guarded(log: seq<Touch>, from: nat, g: bv32)
  {
    from <= |log| && forall j | from <= j < |log| :: log[j].guard == g
  }

  /** Every access in `log` from position `from` on ran under guard `g`, at address `a` and width `w`. */
  predicate Touched(log: seq<Touch>, from: nat, a: nat, w: Width, g: bv32)
  {
    from <= |log| && forall j | from <= j < |log| :: log[j].guard == g && log[j].addr == a && log[j].width == w
  }

  /** Two consecutive stretches of a growing log that ran under one guard make one stretch. */
  lemma GuardedChain(a: seq<Touch>, b: seq<Touch>, c: seq<Touch>, g: bv32)
    requires a <= b && b <= c && Guarded(b, |a|, g) && Guarded(c, |b|, g)
    ensures a <= c && Guarded(c, |a|, g)
  {
    assert forall j | |a| <= j < |b| :: c[j] == b[j];
  }

  class Monitor {
    var guard: bv32
    var excCount: int
    var mem: Memory
    /** Every memory access so far, oldest first. */
    var touches: seq<Touch>
    /** A fault under a guard that recovers nothing has rebooted the machine. */
    var rebooted: bool

    /** The machine at reset: the guard is GUARD_OFF and the count 0. */
    constructor (mem0: Memory)
      ensures guard == GUARD_OFF && excCount == 0
      ensures mem == mem0 && touches == [] && !rebooted
    {
      guard := GUARD_OFF;
      excCount := 0;
      mem := mem0;
      touches := [];
      rebooted := false;
    }

    /**
     * One load of a unit. A mapped unit yields its value; a fault under
     * GUARD_MARK yields all ones and is counted; a fault under SKIP or
     * RETURN is counted; any other fault reboots.
     */
    method LoadUnit(a: nat, w: Width) returns (v: bv64, ok: bool)
      requires !rebooted
      modifies this`excCount, this`touches, this`rebooted
      ensures touches == old(touches) + [Touch(a, w, false, guard)]
      ensures ok <==> Mapped(mem, a, w)
      ensures ok ==> v == ReadUnit(mem, a, w)
      ensures !ok && RecoveryFor(guard) == Mark ==> v == Ones(w)
      ensures excCount == old(excCount) + FaultCost(ok, guard)
      ensures rebooted <==> !ok && RecoveryFor(guard) == Fatal
    {
      touches := touches + [Touch(a, w, false, guard)];
      ok := Mapped(mem, a, w);
      if ok {
        v := ReadUnit(mem, a, w);
      } else {
        var rec := RecoveryFor(guard);
        if rec == Fatal {
          rebooted := true;
          v := 0;
        } else {
          excCount := excCount + 1;
          v := if rec == Mark then Ones(w) else 0;
        }
      }
    }

    /**
     * One store of a unit: the low `Bytes(w)` bytes of `v`, little-endian.
     * A faulting store is dropped and counted, or reboots when the guard
     * recovers nothing.
     */
    method StoreUnit(a: nat, w: Width, v: bv64) returns (ok: bool)
      requires !rebooted
      modifies this`mem, this`excCount, this`touches, this`rebooted
      ensures touches == old(touches) + [Touch(a, w, true, guard)]
      ensures ok <==> Mapped(old(mem), a, w)
      ensures mem == if ok then WriteUnit(old(mem), a, w, v) else old(mem)
      ensures excCount == old(excCount) + FaultCost(ok, guard)
      ensures rebooted <==> !ok && RecoveryFor(guard) == Fatal
    {
      touches := touches + [Touch(a, w, true, guard)];
      ok := Mapped(mem, a, w);
      if ok {
        mem := WriteUnit(mem, a, w, v);
      } else if RecoveryFor(guard) == Fatal {
        rebooted := true;
      } else {
        excCount := excCount + 1;
      }
    }

    /** readN */
    method Read(a: nat, w: Width) returns (r: bv64)
      requires !rebooted
      modifies this`excCount, this`touches, this`rebooted
      ensures old(touches) <= touches && |touches| == |old(touches)| + 1
      ensures Touched(touches, |old(touches)|, a, w, guard)
      ensures Mapped(mem, a, w) ==> r == ReadUnit(mem, a, w) && excCount == old(excCount) && !rebooted
      ensures !Mapped(mem, a, w) && RecoveryFor(guard) == Mark ==> r == Ones(w)
      ensures !Mapped(mem, a, w) ==> excCount == old(excCount) + FaultCost(false, guard)
      ensures rebooted <==> !Mapped(mem, a, w) && RecoveryFor(guard) == Fatal
    {
      var ok;
      r, ok := LoadUnit(a, w);
    }

    /** writeN */
    method Write(a: nat, w: Width, v: bv64)
      requires !rebooted
      modifies this`mem, this`excCount, this`touches, this`rebooted
      ensures old(touches) <= touches && |touches| == |old(touches)| + 1
      ensures Touched(touches, |old(touches)|, a, w, guard)
      ensures Mapped(old(mem), a, w) ==> mem == WriteUnit(old(mem), a, w, v) && excCount == old(excCount)
      ensures !Mapped(old(mem), a, w) ==> mem == old(mem) && excCount == old(excCount) + FaultCost(false, guard)
      ensures rebooted <==> !Mapped(old(mem), a, w) && RecoveryFor(guard) == Fatal
    {
      var ok := StoreUnit(a, w, v);
    }

    /**
     * The read-modify-write shape shared by setN, clearN and maskN: load the
     * unit, compute the new value from it, store that value back unless the
     * load rebooted, and return the new value.
     */
    method Modify(a: nat, w: Width, next: bv64 -> bv64) returns (r: bv64)
      requires !rebooted
      modifies this`mem, this`excCount, this`touches, this`rebooted
      ensures old(touches) <= touches
      ensures |touches| == |old(touches)| + (if rebooted then 1 else 2)
      ensures Touched(touches, |old(touches)|, a, w, guard)
      ensures Mapped(old(mem), a, w) ==>
        r == next(ReadUnit(old(mem), a, w)) && mem == WriteUnit(old(mem), a, w, r) &&
        excCount == old(excCount) && !rebooted
      ensures !Mapped(old(mem), a, w) ==> mem == old(mem)
      ensures !Mapped(old(mem), a, w) && RecoveryFor(guard) == Mark ==> r == next(Ones(w))
      ensures !Mapped(old(mem), a, w) ==> excCount == old(excCount) + 2 * FaultCost(false, guard)
      ensures rebooted <==> !Mapped(old(mem), a, w) && RecoveryFor(guard) == Fatal
    {
      var cur, ok := LoadUnit(a, w);
      r := next(cur);
      if !rebooted {
        ok := StoreUnit(a, w, r);
      }
    }

    /** setN: stores and returns the current unit OR `bits`, within the width. */
    method Set(a: nat, w: Width, bits: bv64) returns (r: bv64)
      requires !rebooted
      modifies this`mem, this`excCount, this`touches, this`rebooted
      ensures old(touches) <= touches
      ensures Touched(touches, |old(touches)|, a, w, guard)
      ensures Mapped(old(mem), a, w) ==>
        r == SetValue(w, ReadUnit(old(mem), a, w), bits) && mem == WriteUnit(old(mem), a, w, r) &&
        excCount == old(excCount) && !rebooted
      ensures !Mapped(old(mem), a, w) ==> mem == old(mem)
      ensures !Mapped(old(mem), a, w) && RecoveryFor(guard) == Mark ==> r == Ones(w) && excCount == old(excCount) + 2
      ensures rebooted <==> !Mapped(old(mem), a, w) && RecoveryFor(guard) == Fatal
    {
      r := Modify(a, w, cur => SetValue(w, cur, bits));
      if !Mapped(old(mem), a, w) && RecoveryFor(guard) == Mark {
        SetOnes(w, bits);
      }
    }

    /** clearN: stores and returns the current unit AND NOT `bits`, within the width. */
    method Clear(a: nat, w: Width, bits: bv64) returns (r: bv64)
      requires !rebooted
      modifies this`mem, this`excCount, this`touches, this`rebooted
      ensures old(touches) <= touches
      ensures Touched(touches, |old(touches)|, a, w, guard)
      ensures Mapped(old(mem), a, w) ==>
        r == ClearValue(w, ReadUnit(old(mem), a, w), bits) && mem == WriteUnit(old(mem), a, w, r) &&
        excCount == old(excCount) && !rebooted
      ensures !Mapped(old(mem), a, w) ==> mem == old(mem)
      ensures !Mapped(old(mem), a, w) && RecoveryFor(guard) == Mark ==>
        r == ClearValue(w, Ones(w), bits) && excCount == old(excCount) + 2
      ensures rebooted <==> !Mapped(old(mem), a, w) && RecoveryFor(guard) == Fatal
    {
      r := Modify(a, w, cur => ClearValue(w, cur, bits));
    }

    /** maskN: stores and returns (current unit AND NOT `clr`) OR `bits`, within the width. */
    method Mask(a: nat, w: Width, clr: bv64, bits: bv64) returns (r: bv64)
      requires !rebooted
      modifies this`mem, this`excCount, this`touches, this`rebooted
      ensures old(touches) <= touches
      ensures Touched(touches, |old(touches)|, a, w, guard)
      ensures Mapped(old(mem), a, w) ==>
        r == MaskValue(w, ReadUnit(old(mem), a, w), clr, bits) && mem == WriteUnit(old(mem), a, w, r) &&
        excCount == old(excCount) && !rebooted
      ensures !Mapped(old(mem), a, w) ==> mem == old(mem)
      ensures !Mapped(old(mem), a, w) && RecoveryFor(guard) == Mark ==>
        r == MaskValue(w, Ones(w), clr, bits) && excCount == old(excCount) + 2
      ensures rebooted <==> !Mapped(old(mem), a, w) && RecoveryFor(guard) == Fatal
    {
      r := Modify(a, w, cur => MaskValue(w, cur, clr, bits));
    }

    /** writereadN: store `v`, then load the same unit back and return it. */
    method WriteRead(a: nat, w: Width, v: bv64) returns (r: bv64)
      requires !rebooted
      modifies this`mem, this`excCount, this`touches, this`rebooted
      ensures old(touches) <= touches
      ensures Touched(touches, |old(touches)|, a, w, guard)
      ensures Mapped(old(mem), a, w) ==>
        r == Trunc(w, v) && mem == WriteUnit(old(mem), a, w, v) && excCount == old(excCount) && !rebooted
      ensures !Mapped(old(mem), a, w) ==> mem == old(mem)
      ensures !Mapped(old(mem), a, w) && RecoveryFor(guard) == Mark ==> r == Ones(w) && excCount == old(excCount) + 2
      ensures rebooted <==> !Mapped(old(mem), a, w) && RecoveryFor(guard) == Fatal
    {
      var ok := StoreUnit(a, w, v);
      r := 0;
      if !rebooted {
        r, ok := LoadUnit(a, w);
        if Mapped(old(mem), a, w) {
          ReadAfterWrite(old(mem), a, w, v);
        }
      }
    }

    /**
     * One iteration of memsetN's loop: store `v` at unit `i` of the buffer,
     * on a memory that holds the `i` units stored so far. It succeeds
     * exactly when unit `i` lies before the first unmapped one.
     */
    method FillStep(dst: nat, w: Width, v: bv64, n: nat, i: nat, ghost mem0: Memory) returns (ok: bool)
      requires !rebooted
      requires RecoveryFor(guard) == Return || RecoveryFor(guard) == Fatal
      requires i < n && i <= MappedUnits(mem0, dst, Bytes(w), n) && MappedRange(mem0, dst, Span(Bytes(w), i))
      requires mem == Fill(mem0, dst, w, v, i)
      modifies this`mem, this`excCount, this`touches, this`rebooted
      ensures Guarded(touches, |old(touches)|, guard) && old(touches) <= touches
      ensures ok <==> i < MappedUnits(mem0, dst, Bytes(w), n)
      ensures ok ==> MappedRange(mem0, dst, Span(Bytes(w), i + 1)) && mem == Fill(mem0, dst, w, v, i + 1)
      ensures ok ==> excCount == old(excCount) && !rebooted
      ensures !ok ==> mem == old(mem) && excCount == old(excCount) + FaultCost(false, guard)
      ensures !ok ==> (rebooted <==> RecoveryFor(guard) == Fatal)
    {
      MappedUnitsAt(mem0, dst, Bytes(w), n, i);
      ok := StoreUnit(UnitAddr(dst, Bytes(w), i), w, v);
      if ok {
        FillNext(mem0, dst, w, v, i, MappedUnits(mem0, dst, Bytes(w), n));
      }
    }

    /**
     * memsetN's loop over `n` units. It stops at the first unit whose store
     * faults: under GUARD_RETURN the fault is counted and the operation
     * returns, under a guard that recovers nothing the machine reboots.
     */
    method MemSet(dst: nat, w: Width, v: bv64, n: nat)
      requires !rebooted
      requires RecoveryFor(guard) == Return || RecoveryFor(guard) == Fatal
      modifies this`mem, this`excCount, this`touches, this`rebooted
      ensures Guarded(touches, |old(touches)|, guard) && old(touches) <= touches
      ensures mem == Fill(old(mem), dst, w, v, MappedUnits(old(mem), dst, Bytes(w), n))
      ensures excCount == old(excCount) + FaultCost(MappedUnits(old(mem), dst, Bytes(w), n) == n, guard)
      ensures rebooted <==> MappedUnits(old(mem), dst, Bytes(w), n) < n && RecoveryFor(guard) == Fatal
    {
      ghost var k := MappedUnits(mem, dst, Bytes(w), n);
      var i := 0;
      while i < n
        invariant i <= k
        invariant !rebooted && excCount == old(excCount)
        invariant Guarded(touches, |old(touches)|, guard) && old(touches) <= touches
        invariant MappedRange(old(mem), dst, Span(Bytes(w), i))
        invariant mem == Fill(old(mem), dst, w, v, i)
      {
        ghost var before := touches;
        var ok := FillStep(dst, w, v, n, i, old(mem));
        GuardedChain(old(touches), before, touches, guard);
        if !ok {
          break;
        }
        i := i + 1;
      }
    }

    /**
     * One step of memcpyN: `buf[i] = source[i]`, a load of the source unit
     * and, unless it faulted, a store to the destination unit.
     */
    method CopyUnit(d: nat, s: nat, w: Width) returns (ok: bool)
      requires !rebooted
      requires RecoveryFor(guard) == Return || RecoveryFor(guard) == Fatal
      modifies this`mem, this`excCount, this`touches, this`rebooted
      ensures Guarded(touches, |old(touches)|, guard) && old(touches) <= touches
      ensures ok <==> Mapped(old(mem), s, w) && Mapped(old(mem), d, w)
      ensures ok ==> mem == WriteUnit(old(mem), d, w, ReadUnit(old(mem), s, w))
      ensures !ok ==> mem == old(mem)
      ensures excCount == old(excCount) + FaultCost(ok, guard)
      ensures rebooted <==> !ok && RecoveryFor(guard) == Fatal
    {
      var v;
      v, ok := LoadUnit(s, w);
      if ok {
        ok := StoreUnit(d, w, v);
      }
    }

    /**
     * One iteration of memcpyN's loop: copy unit `i`, on a memory where the
     * `i` units before it have been copied. It succeeds exactly when both
     * units `i` lie before the first pair that faults.
     */
    method CopyStep(dst: nat, src: nat, w: Width, n: nat, i: nat, ghost mem0: Memory) returns (ok: bool)
      requires !rebooted
      requires RecoveryFor(guard) == Return || RecoveryFor(guard) == Fatal
      requires i < n && i <= CopyableUnits(mem0, dst, src, Bytes(w), n)
      requires MappedRange(mem0, dst, Span(Bytes(w), i)) && MappedRange(mem0, src, Span(Bytes(w), i))
      requires mem == Copy(mem0, dst, src, Bytes(w), i)
      modifies this`mem, this`excCount, this`touches, this`rebooted
      ensures Guarded(touches, |old(touches)|, guard) && old(touches) <= touches
      ensures ok <==> i < CopyableUnits(mem0, dst, src, Bytes(w), n)
      ensures ok ==> MappedRange(mem0, dst, Span(Bytes(w), i + 1)) && MappedRange(mem0, src, Span(Bytes(w), i + 1))
      ensures ok ==> mem == Copy(mem0, dst, src, Bytes(w), i + 1)
      ensures ok ==> excCount == old(excCount) && !rebooted
      ensures !ok ==> mem == old(mem) && excCount == old(excCount) + FaultCost(false, guard)
      ensures !ok ==> (rebooted <==> RecoveryFor(guard) == Fatal)
    {
      CopyableUnitsAt(mem0, dst, src, Bytes(w), n, i);
      ok := CopyUnit(UnitAddr(dst, Bytes(w), i), UnitAddr(src, Bytes(w), i), w);
      if ok {
        CopyNext(mem0, dst, src, w, i, CopyableUnits(mem0, dst, src, Bytes(w), n));
      }
    }

    /**
     * memcpyN's loop over `n` units: each unit is loaded from `src` and
     * stored at `dst`. It stops at the first unit whose load or store
     * faults, as MemSet does.
     */
    method MemCpy(dst: nat, src: nat, w: Width, n: nat)
      requires !rebooted
      requires RecoveryFor(guard) == Return || RecoveryFor(guard) == Fatal
      modifies this`mem, this`excCount, this`touches, this`rebooted
      ensures old(touches) <= touches
      ensures Guarded(touches, |old(touches)|, guard)
      ensures mem == Copy(old(mem), dst, src, Bytes(w), CopyableUnits(old(mem), dst, src, Bytes(w), n))
      ensures excCount == old(excCount) + FaultCost(CopyableUnits(old(mem), dst, src, Bytes(w), n) == n, guard)
      ensures rebooted <==> CopyableUnits(old(mem), dst, src, Bytes(w), n) < n && RecoveryFor(guard) == Fatal
    {
      ghost var k := CopyableUnits(mem, dst, src, Bytes(w), n);
      var i := 0;
      while i < n
        invariant i <= k
        invariant !rebooted && excCount == old(excCount)
        invariant Guarded(touches, |old(touches)|, guard) && old(touches) <= touches
        invariant MappedRange(old(mem), dst, Span(Bytes(w), i)) && MappedRange(old(mem), src, Span(Bytes(w), i))
        invariant mem == Copy(old(mem), dst, src, Bytes(w), i)
      {
        ghost var before := touches;
        var ok := CopyStep(dst, src, w, n, i, old(mem));
        GuardedChain(old(touches), before, touches, guard);
        if !ok {
          break;
        }
        i := i + 1;
      }
    }

    /**
     * memcpy8 as written: the loop runs `size` times, but over 16-bit
     * pointers, so it copies `size` 16-bit units (2 * size bytes).
     */
    method Memcpy8AsWritten(dst: nat, src: nat, size: nat)
      requires !rebooted
      requires RecoveryFor(guard) == Return || RecoveryFor(guard) == Fatal
      modifies this`mem, this`excCount, this`touches, this`rebooted
      ensures mem == Copy(old(mem), dst, src, 2, CopyableUnits(old(mem), dst, src, 2, size))
    {
      MemCpy(dst, src, W16, size);
    }
  }

  /** setN on an all-ones unit leaves it all ones. */
  lemma SetOnes(w: Width, bits: bv64)
    ensures SetValue(w, Ones(w), bits) == Ones(w)
  {
    OrAbsorbed(Ones(w), bits);
  }

  /** setN twice with the same bits leaves memory as setN once, and returns the same value. */
  lemma SetTwice(mem: Memory, a: nat, w: Width, bits: bv64)
    requires Mapped(mem, a, w)
    ensures var r1 := SetValue(w, ReadUnit(mem, a, w), bits);
            var m1 := WriteUnit(mem, a, w, r1);
            Mapped(m1, a, w) &&
            SetValue(w, ReadUnit(m1, a, w), bits) == r1 &&
            WriteUnit(m1, a, w, SetValue(w, ReadUnit(m1, a, w), bits)) == m1
  {
    var r1 := SetValue(w, ReadUnit(mem, a, w), bits);
    var m1 := WriteUnit(mem, a, w, r1);
    ReadAfterWrite(mem, a, w, r1);
    TruncFits(w, r1);
    SetIdempotent(w, ReadUnit(mem, a, w), bits);
    WriteBackRead(m1, a, w);
  }

  /**
   * memcpy8 as written writes past the `size` bytes it is asked for: with
   * `size` 1 it copies a whole 16-bit unit, so the byte after the
   * destination receives the byte after the source.
   */
  lemma Memcpy8Overrun(mem: Memory, dst: nat, src: nat)
    requires Mapped(mem, dst, W16) && Mapped(mem, src, W16)
    ensures CopyableUnits(mem, dst, src, 2, 1) == 1
    ensures Copy(mem, dst, src, 2, 1)[dst + 1] == mem[src + 1]
  {
    assert CopyableUnits(mem, dst + 2, src + 2, 2, 0) == 0;
    assert Span(2, 1) == 2 && Span(2, 0) == 0;
  }

  /** memcpy8 as intended copies `size` single bytes and leaves every byte outside them as it was. */
  lemma Memcpy8Intended(mem: Memory, dst: nat, src: nat, size: nat)
    requires MappedRange(mem, dst, size) && MappedRange(mem, src, size)
    ensures Span(1, size) == size
    ensures forall i :: 0 <= i < |mem| && !(dst <= i < dst + size) ==> Copy(mem, dst, src, 1, size)[i] == mem[i]
    ensures Disjoint(dst, src, size) ==> forall i :: dst <= i < dst + size ==> Copy(mem, dst, src, 1, size)[i] == mem[src + (i - dst)]
  {
    SpanIsProduct(1, size);
    forall i | 0 <= i < |mem| && !(dst <= i < dst + size)
      ensures Copy(mem, dst, src, 1, size)[i] == mem[i]
    {
      CopyFrame(mem, dst, src, 1, size, i);
    }
    if Disjoint(dst, src, size) {
      forall i | dst <= i < dst + size
        ensures Copy(mem, dst, src, 1, size)[i] == mem[src + (i - dst)]
      {
        CopyContents(mem, dst, src, 1, size, i);
      }
    }
  }

  /** The number of loop iterations `while (--timeout > 0)` allows: the pre-decrement wraps a timeout of 0 to 2^32 - 1. */
  function PollBudget(timeout: nat): (b: nat)
    requires timeout < 0x1_0000_0000
    ensures b < 0x1_0000_0000
    ensures timeout >= 1 ==> b + 1 == timeout
  {
    if timeout == 0 then 0xffff_ffff else timeout - 1
  }

  /** The k-th read of poll32 matches: its masked value equals the target. */
  predicate Hit32(sample: nat -> bv32, mask: bv32, target: bv32, k: nat)
  {
    sample(k) & mask == target
  }

  /**
   * poll32: read the register until its masked value equals `target`, at
   * most `PollBudget(timeout)` times. `sample(k)` is the value the k-th read
   * returns; `tries` is the number of reads made.
   */
  method Poll32(sample: nat -> bv32, mask: bv32, target: bv32, timeout: nat) returns (r: int, tries: nat)
    requires timeout < 0x1_0000_0000
    ensures r == 0 || r == -1
    ensures tries <= PollBudget(timeout)
    ensures r == 0 <==> exists k: nat :: k < PollBudget(timeout) && Hit32(sample, mask, target, k)
    ensures r == 0 ==> 1 <= tries && Hit32(sample, mask, target, tries - 1)
    ensures forall k: nat :: k < tries - 1 ==> !Hit32(sample, mask, target, k)
    ensures r == -1 ==> tries == PollBudget(timeout)
  {
    tries := 0;
    var t := PollBudget(timeout);
    while t > 0
      invariant tries + t == PollBudget(timeout)
      invariant forall k: nat :: k < tries ==> !Hit32(sample, mask, target, k)
    {
      var value := sample(tries) & mask;
      if value == target {
        assert Hit32(sample, mask, target, tries);
        return 0, tries + 1;
      }
      assert !Hit32(sample, mask, target, tries);
      tries := tries + 1;
      t := t - 1;
    }
    return -1, tries;
  }

  /** The k-th read of poll64 matches: its masked value, cut to 32 bits, equals the 64-bit target. */
  predicate Hit64(sample: nat -> bv64, mask: bv64, target: bv64, k: nat)
  {
    (sample(k) & mask) & 0xffff_ffff == target
  }

  /**
   * poll64: as poll32, but the masked 64-bit value is stored in a 32-bit
   * variable before it is compared with the 64-bit target, so a target of
   * 2^32 or more never matches.
   */
  method Poll64(sample: nat -> bv64, mask: bv64, target: bv64, timeout: nat) returns (r: int, tries: nat)
    requires timeout < 0x1_0000_0000
    ensures r == 0 || r == -1
    ensures tries <= PollBudget(timeout)
    ensures r == 0 <==> exists k: nat :: k < PollBudget(timeout) && Hit64(sample, mask, target, k)
    ensures r == 0 ==> 1 <= tries && Hit64(sample, mask, target, tries - 1)
    ensures forall k: nat :: k < tries - 1 ==> !Hit64(sample, mask, target, k)
    ensures target > 0xffff_ffff ==> r == -1
    ensures r == -1 ==> tries == PollBudget(timeout)
  {
    tries := 0;
    var t := PollBudget(timeout);
    while t > 0
      invariant tries + t == PollBudget(timeout)
      invariant forall k: nat :: k < tries ==> !Hit64(sample, mask, target, k)
    {
      // the u32 `value`, zero-extended again for the comparison with the u64 target
      var value := (sample(tries) & mask) & 0xffff_ffff;
      if value == target {
        assert Hit64(sample, mask, target, tries);
        return 0, tries + 1;
      }
      assert !Hit64(sample, mask, target, tries);
      tries := tries + 1;
      t := t - 1;
    }
    return -1, tries;
  }
}
