/**
 * Early boot: the boot-argument block the monitor keeps (cur_boot_args) and
 * the downward bump allocator top_of_memory_alloc that carves blocks off the
 * top of memory, the timer tick conversions, mini_start's memory-size and
 * device-tree address arithmetic, and the R_ARM_RELATIVE relocator
 * apply_rela that runs before anything else.
 *
 * Every boot-argument word is a u32; the arithmetic on them wraps modulo
 * 2^32 as the C does.
 */
module Boot {
  import opened Bits
  import opened Mem

  /** PAGE_SIZE, the value get_page_size returns. */
  const PAGE_SIZE: nat := 4096

  // ---------------------------------------------------------------------------
  // top_of_memory_alloc

  /** mem_size after one top_of_memory_alloc(size): lowered by the page-rounded size, and by the guard page on the first call. */
  function LoweredSize(memSize: nat, size: nat, guardPlaced: bool): (r: nat)
    requires memSize < U32 && size < U32
    ensures r < U32
  {
    var block := AlignUp(size, PAGE_SIZE);
    AlignUpAligned(size, PAGE_SIZE);
    var afterBlock := (memSize + U32 - block) % U32;
    if guardPlaced then afterBlock else (afterBlock + U32 - PAGE_SIZE) % U32
  }

  /** The address top_of_memory_alloc returns. */
  function BlockAddress(physBase: nat, memSize: nat, size: nat, guardPlaced: bool): (r: nat)
    requires physBase < U32 && memSize < U32 && size < U32
    ensures r < U32
  {
    var afterBlock := (memSize + U32 - AlignUp(size, PAGE_SIZE)) % U32;
    var ret := (physBase + afterBlock) % U32;
    if guardPlaced then (ret + PAGE_SIZE) % U32 else ret
  }

  /**
   * Every block starts one page above the new top of memory: the page
   * between `phys_base + mem_size` and the block is the guard page.
   */
  lemma BlockAboveGuardPage(physBase: nat, memSize: nat, size: nat, guardPlaced: bool)
    requires physBase < U32 && memSize < U32 && size < U32
    ensures BlockAddress(physBase, memSize, size, guardPlaced)
         == (physBase + LoweredSize(memSize, size, guardPlaced) + PAGE_SIZE) % U32
  {
    var afterBlock := (memSize + U32 - AlignUp(size, PAGE_SIZE)) % U32;
    if !guardPlaced {
      var lowered := (afterBlock + U32 - PAGE_SIZE) % U32;
      WrapSubAdd(afterBlock, PAGE_SIZE);
      assert (lowered + PAGE_SIZE) % U32 == afterBlock;
      ModAddRight(physBase, lowered + PAGE_SIZE);
    } else {
      ModAddRight(physBase, afterBlock);
      ModAddLeft(physBase + afterBlock, PAGE_SIZE);
    }
  }

  /** The first block ends exactly at the old top of memory `phys_base + mem_size`. */
  lemma FirstBlockAtTop(physBase: nat, memSize: nat, size: nat)
    requires physBase < U32 && memSize < U32 && size < U32
    ensures (BlockAddress(physBase, memSize, size, false) + AlignUp(size, PAGE_SIZE)) % U32
         == (physBase + memSize) % U32
  {
    var block := AlignUp(size, PAGE_SIZE);
    AlignUpAligned(size, PAGE_SIZE);
    assert BlockAddress(physBase, memSize, size, false) == (physBase + (memSize + U32 - block) % U32) % U32;
    EndAtTop(physBase, memSize, block);
  }

  /** The address arithmetic of FirstBlockAtTop, for any block length `block` below 2^32. */
  lemma EndAtTop(physBase: nat, memSize: nat, block: nat)
    requires physBase < U32 && memSize < U32 && block < U32
    ensures ((physBase + (memSize + U32 - block) % U32) % U32 + block) % U32 == (physBase + memSize) % U32
  {
    var afterBlock := (memSize + U32 - block) % U32;
    WrapSubAdd(memSize, block);
    ModAddRight(physBase, afterBlock + block);
    ModAddLeft(physBase + afterBlock, block);
  }

  /**
   * Once the guard page is in place, the next block ends where the previous
   * one began: successive blocks are adjacent and descending.
   */
  lemma NextBlockAdjacent(physBase: nat, memSize: nat, size1: nat, size2: nat, guardPlaced: bool)
    requires physBase < U32 && memSize < U32 && size1 < U32 && size2 < U32
    ensures var m1 := LoweredSize(memSize, size1, guardPlaced);
            (BlockAddress(physBase, m1, size2, true) + AlignUp(size2, PAGE_SIZE)) % U32
            == BlockAddress(physBase, memSize, size1, guardPlaced)
  {
    BlockAboveGuardPage(physBase, memSize, size1, guardPlaced);
    GuardedBlockEnd(physBase, LoweredSize(memSize, size1, guardPlaced), size2);
  }

  /** With the guard page in place a block ends one page above the top of memory it was carved from. */
  lemma GuardedBlockEnd(physBase: nat, memSize: nat, size: nat)
    requires physBase < U32 && memSize < U32 && size < U32
    ensures (BlockAddress(physBase, memSize, size, true) + AlignUp(size, PAGE_SIZE)) % U32
         == (physBase + memSize + PAGE_SIZE) % U32
  {
    var block := AlignUp(size, PAGE_SIZE);
    AlignUpAligned(size, PAGE_SIZE);
    assert BlockAddress(physBase, memSize, size, true) == ((physBase + (memSize + U32 - block) % U32) % U32 + PAGE_SIZE) % U32;
    EndAboveGuard(physBase, memSize, block);
  }

  /** The address arithmetic of GuardedBlockEnd, for any block length `block` below 2^32. */
  lemma EndAboveGuard(physBase: nat, memSize: nat, block: nat)
    requires physBase < U32 && memSize < U32 && block < U32
    ensures (((physBase + (memSize + U32 - block) % U32) % U32 + PAGE_SIZE) % U32 + block) % U32
         == (physBase + memSize + PAGE_SIZE) % U32
  {
    var afterBlock := (memSize + U32 - block) % U32;
    ModAddLeft(physBase + afterBlock, PAGE_SIZE);
    ModAddLeft(physBase + afterBlock + PAGE_SIZE, block);
    ModAddRight(physBase + PAGE_SIZE, afterBlock + block);
    WrapSubAdd(memSize, block);
  }

  /** Without wrap-around the first call lowers mem_size by the rounded size plus the guard page. */
  lemma FirstCallLowers(memSize: nat, size: nat)
    requires memSize < U32 && size < U32
    requires AlignUp(size, PAGE_SIZE) + PAGE_SIZE <= memSize
    ensures LoweredSize(memSize, size, false) == memSize - AlignUp(size, PAGE_SIZE) - PAGE_SIZE
  {
    var block := AlignUp(size, PAGE_SIZE);
    DivModUnique(memSize + U32 - block, U32, 1, memSize - block);
    DivModUnique(memSize - block + U32 - PAGE_SIZE, U32, 1, memSize - block - PAGE_SIZE);
  }

  /** `((x - y) mod 2^32 + y) mod 2^32 == x` for 32-bit `x` and `y`. */
  lemma WrapSubAdd(x: nat, y: nat)
    requires x < U32 && y < U32
    ensures ((x + U32 - y) % U32 + y) % U32 == x
  {
    if y <= x {
      DivModUnique(x + U32 - y, U32, 1, x - y);
    } else {
      DivModUnique(x + U32 - y, U32, 0, x + U32 - y);
    }
    DivModUnique(x + U32, U32, 1, x);
  }

  /** Reducing the right operand first does not change a sum modulo 2^32. */
  lemma ModAddRight(x: nat, y: nat)
    ensures (x + y % U32) % U32 == (x + y) % U32
  {
    var q := y / U32;
    DivModUnique(x + y, U32, (x + y % U32) / U32 + q, (x + y % U32) % U32);
  }

  /** Reducing the left operand first does not change a sum modulo 2^32. */
  lemma ModAddLeft(x: nat, y: nat)
    ensures (x % U32 + y) % U32 == (x + y) % U32
  {
    ModAddRight(y, x);
  }

  /**
   * cur_boot_args together with top_of_memory_alloc's static
   * `guard_page_inserted` flag. Only the fields the core reads are kept.
   */
  class BootArgs {
    var virtBase: nat
    var physBase: nat
    var memSize: nat
    var videoBase: nat
    var videoStride: nat
    var videoHeight: nat
    var devtree: nat
    var devtreeSize: nat
    var guardPlaced: bool

    /** Every field holds a u32. */
    predicate Valid()
      reads this
    {
      virtBase < U32 && physBase < U32 && memSize < U32 && videoBase < U32 &&
      videoStride < U32 && videoHeight < U32 && devtree < U32 && devtreeSize < U32
    }

    /** The copy of the boot arguments iBoot handed over; no block has been allocated yet. */
    constructor (virtBase: nat, physBase: nat, memSize: nat, videoBase: nat, videoStride: nat,
                 videoHeight: nat, devtree: nat, devtreeSize: nat)
      requires virtBase < U32 && physBase < U32 && memSize < U32 && videoBase < U32
      requires videoStride < U32 && videoHeight < U32 && devtree < U32 && devtreeSize < U32
      ensures Valid() && !guardPlaced
      ensures this.virtBase == virtBase && this.physBase == physBase && this.memSize == memSize
      ensures this.videoBase == videoBase && this.videoStride == videoStride && this.videoHeight == videoHeight
      ensures this.devtree == devtree && this.devtreeSize == devtreeSize
    {
      this.virtBase, this.physBase, this.memSize := virtBase, physBase, memSize;
      this.videoBase, this.videoStride, this.videoHeight := videoBase, videoStride, videoHeight;
      this.devtree, this.devtreeSize := devtree, devtreeSize;
      guardPlaced := false;
    }

    /**
     * top_of_memory_alloc: lower mem_size by `size` rounded up to whole
     * pages and return the block at the new top. The first call also leaves
     * a guard page below the block; later calls move that page down by
     * returning the block one page higher.
     */
    method TopOfMemoryAlloc(size: nat) returns (ret: nat)
      requires Valid() && size < U32
      modifies this`memSize, this`guardPlaced
      ensures Valid() && guardPlaced
      ensures memSize == LoweredSize(old(memSize), size, old(guardPlaced))
      ensures ret == BlockAddress(physBase, old(memSize), size, old(guardPlaced))
      ensures ret == (physBase + memSize + PAGE_SIZE) % U32
    {
      BlockAboveGuardPage(physBase, memSize, size, guardPlaced);
      AlignUpAligned(size, PAGE_SIZE);
      memSize := (memSize + U32 - AlignUp(size, PAGE_SIZE)) % U32;
      ret := (physBase + memSize) % U32;
      if !guardPlaced {
        memSize := (memSize + U32 - PAGE_SIZE) % U32;
        guardPlaced := true;
      } else {
        ret := (ret + PAGE_SIZE) % U32;
      }
    }

    /**
     * The arithmetic of mini_start: mem_size becomes the end of the
     * framebuffer minus phys_base, the device tree gets a block at the top
     * of memory, and its source is the boot-time device-tree pointer moved
     * from the virtual to the physical base. Returns the new block and the
     * source address.
     */
    method MiniStart() returns (adtNew: nat, adtSrc: nat)
      requires Valid()
      modifies this`memSize, this`guardPlaced
      ensures Valid() && guardPlaced
      ensures adtSrc == AdtSource(devtree, virtBase, physBase)
      ensures var top := FramebufferEnd(videoBase, videoStride, videoHeight, physBase);
              memSize == LoweredSize(top, devtreeSize, old(guardPlaced)) &&
              adtNew == BlockAddress(physBase, top, devtreeSize, old(guardPlaced))
    {
      memSize := FramebufferEnd(videoBase, videoStride, videoHeight, physBase);
      adtNew := TopOfMemoryAlloc(devtreeSize);
      adtSrc := AdtSource(devtree, virtBase, physBase);
    }
  }

  /** mini_start's new mem_size: `video.base + video.stride * video.height - phys_base` in u32 arithmetic. */
  function FramebufferEnd(videoBase: nat, stride: nat, height: nat, physBase: nat): (r: nat)
    requires physBase < U32
    ensures r < U32
  {
    ((videoBase + (stride * height) % U32) % U32 + U32 - physBase) % U32
  }

  /** Without wrap-around mem_size spans exactly from phys_base to the end of the framebuffer. */
  lemma FramebufferEndExact(videoBase: nat, stride: nat, height: nat, physBase: nat)
    requires physBase <= videoBase + stride * height < U32
    ensures FramebufferEnd(videoBase, stride, height, physBase) == videoBase + stride * height - physBase
  {
    var fb := stride * height;
    DivModUnique(fb, U32, 0, fb);
    DivModUnique(videoBase + fb, U32, 0, videoBase + fb);
    DivModUnique(videoBase + fb + U32 - physBase, U32, 1, videoBase + fb - physBase);
  }

  /** The device tree's physical address: `devtree - virt_base + phys_base` in u32 arithmetic. */
  function AdtSource(devtree: nat, virtBase: nat, physBase: nat): (r: nat)
    requires virtBase < U32
    ensures r < U32
  {
    ((devtree + U32 - virtBase) % U32 + physBase) % U32
  }

  /** A device tree at `virt_base + k` is found at `phys_base + k`. */
  lemma AdtSourceTranslates(virtBase: nat, physBase: nat, k: nat)
    requires virtBase + k < U32 && physBase + k < U32
    ensures AdtSource(virtBase + k, virtBase, physBase) == physBase + k
  {
    DivModUnique(virtBase + k + U32 - virtBase, U32, 1, k);
    DivModUnique(k + physBase, U32, 0, k + physBase);
  }

  // ---------------------------------------------------------------------------
  // Timer ticks

  /** get_hz: the timer runs at 24 MHz. */
  const TIMER_FREQ: nat := 24_000_000

  /** ticks_to_msecs: whole milliseconds in `ticks`, rounded down. */
  function TicksToMsecs(ticks: nat): (ms: nat)
    ensures ms * (TIMER_FREQ / 1000) <= ticks < (ms + 1) * (TIMER_FREQ / 1000)
  {
    RoundDown(ticks, TIMER_FREQ / 1000);
    ticks / (TIMER_FREQ / 1000)
  }

  /** ticks_to_usecs: whole microseconds in `ticks`, rounded down. */
  function TicksToUsecs(ticks: nat): (us: nat)
    ensures us * (TIMER_FREQ / 1_000_000) <= ticks < (us + 1) * (TIMER_FREQ / 1_000_000)
  {
    ticks / (TIMER_FREQ / 1_000_000)
  }

  /** At a whole number of MHz the two conversions agree: milliseconds are microseconds / 1000. */
  lemma MsecsFromUsecs(ticks: nat)
    ensures TicksToMsecs(ticks) == TicksToUsecs(ticks) / 1000
  {
    var us := TicksToUsecs(ticks);
    var ms := us / 1000;
    var r := us % 1000;
    assert us == ms * 1000 + r;
    assert ticks == us * 24 + ticks % 24;
    assert ticks == ms * 24000 + (r * 24 + ticks % 24);
    DivModUnique(ticks, 24000, ms, r * 24 + ticks % 24);
  }

  // ---------------------------------------------------------------------------
  // apply_rela

  /** R_ARM_RELATIVE */
  const R_ARM_RELATIVE: nat := 23

  /** A 32-bit unsigned value. */
  type Word = x: nat | x < U32

  /** struct rela_entry */
  datatype RelaEntry = RelaEntry(off: Word, info: Word)

  /** The relocation type: the low byte of `info`. */
  function RelaType(e: RelaEntry): nat
  {
    e.info % 0x100
  }

  /** The address of the word entry `e` relocates: `base + off` in u32 arithmetic. */
  function RelaAddr(base: Word, e: RelaEntry): nat
  {
    (base + e.off) % U32
  }

  /** Every word the entries name lies in memory. */
  predicate RelaMapped(mem: Memory, base: Word, es: seq<RelaEntry>)
  {
    forall k | 0 <= k < |es| :: Mapped(mem, RelaAddr(base, es[k]), W32)
  }

  /** Every entry has type R_ARM_RELATIVE. */
  predicate AllRelative(es: seq<RelaEntry>)
  {
    forall k | 0 <= k < |es| :: RelaType(es[k]) == R_ARM_RELATIVE
  }

  /** The effect of one R_ARM_RELATIVE entry on the word at `a`: it grows by `d`, modulo 2^32. */
  function RelocateWord(mem: Memory, a: nat, d: bv64): (r: Memory)
    requires Mapped(mem, a, W32)
    ensures |r| == |mem|
  {
    WriteUnit(mem, a, W32, ReadUnit(mem, a, W32) + d)
  }

  /**
   * Memory after the words of `es` have been relocated, in order: each
   * word at `base + off` grows by `d`, which apply_rela takes to be `base`
   * itself (the two roles of `base` are kept apart so that the address
   * arithmetic and the word arithmetic can be reasoned about separately).
   */
  function Relocated(mem: Memory, base: Word, d: bv64, es: seq<RelaEntry>): (r: Memory)
    requires RelaMapped(mem, base, es)
    ensures |r| == |mem|
    decreases |es|
  {
    if es == [] then mem
    else
      var front := es[..|es| - 1];
      assert RelaMapped(mem, base, front);
      RelocateWord(Relocated(mem, base, d, front), RelaAddr(base, es[|es| - 1]), d)
  }

  /** The last entry of a non-empty range relocates the memory the entries before it left. */
  lemma RelocatedLast(mem: Memory, base: Word, d: bv64, es: seq<RelaEntry>)
    requires RelaMapped(mem, base, es) && es != []
    ensures RelaMapped(mem, base, es[..|es| - 1])
    ensures Relocated(mem, base, d, es) == RelocateWord(Relocated(mem, base, d, es[..|es| - 1]), RelaAddr(base, es[|es| - 1]), d)
  {
  }

  /** Extending the prefix of the entries walked so far by one entry whose word is mapped. */
  lemma PrefixNext(mem: Memory, base: Word, es: seq<RelaEntry>, i: nat)
    requires i < |es| && RelaMapped(mem, base, es[..i]) && Mapped(mem, RelaAddr(base, es[i]), W32)
    ensures RelaMapped(mem, base, es[..i + 1])
  {
    assert forall k | 0 <= k < i + 1 :: es[..i + 1][k] == es[k];
    assert forall k | 0 <= k < i :: es[..i][k] == es[k];
  }

  /** An R_ARM_RELATIVE entry after R_ARM_RELATIVE entries extends the relative prefix. */
  lemma RelativeNext(es: seq<RelaEntry>, i: nat)
    requires i < |es| && AllRelative(es[..i]) && RelaType(es[i]) == R_ARM_RELATIVE
    ensures AllRelative(es[..i + 1])
  {
    assert forall k | 0 <= k < i + 1 :: es[..i + 1][k] == es[k];
    assert forall k | 0 <= k < i :: es[..i][k] == es[k];
  }

  /** One more entry, after the first `i`. */
  lemma RelocatedNext(mem: Memory, base: Word, d: bv64, es: seq<RelaEntry>, i: nat)
    requires i < |es| && RelaMapped(mem, base, es[..i + 1])
    ensures RelaMapped(mem, base, es[..i])
    ensures Relocated(mem, base, d, es[..i + 1]) == RelocateWord(Relocated(mem, base, d, es[..i]), RelaAddr(base, es[i]), d)
  {
    var es' := es[..i + 1];
    assert es'[..i] == es[..i] && es'[i] == es[i];
    RelocatedLast(mem, base, d, es');
  }

  /**
   * Every word apply_rela reaches lies in memory: the word of each entry
   * that is itself R_ARM_RELATIVE and follows only R_ARM_RELATIVE entries.
   * Entries after the first of another type are never read.
   */
  predicate ReachedMapped(mem: Memory, base: Word, es: seq<RelaEntry>)
  {
    forall k | 0 <= k < |es| && AllRelative(es[..k + 1]) :: Mapped(mem, RelaAddr(base, es[k]), W32)
  }

  /** A byte that no entry's word covers keeps its value; the empty range changes nothing. */
  lemma {:induction false} RelocatedFrame(mem: Memory, base: Word, d: bv64, es: seq<RelaEntry>, i: nat)
    requires RelaMapped(mem, base, es) && i < |mem|
    requires forall k | 0 <= k < |es| :: !(RelaAddr(base, es[k]) <= i < RelaAddr(base, es[k]) + 4)
    ensures Relocated(mem, base, d, es)[i] == mem[i]
    decreases |es|
  {
    if es != [] {
      var front := es[..|es| - 1];
      RelocatedLast(mem, base, d, es);
      assert forall k | 0 <= k < |front| :: front[k] == es[k];
      RelocatedFrame(mem, base, d, front, i);
      RelocateWordFrame(Relocated(mem, base, d, front), RelaAddr(base, es[|es| - 1]), d, i);
    }
  }

  /** Relocating one word changes no byte outside it. */
  lemma RelocateWordFrame(mem: Memory, a: nat, d: bv64, i: nat)
    requires Mapped(mem, a, W32) && i < |mem| && !(a <= i < a + 4)
    ensures RelocateWord(mem, a, d)[i] == mem[i]
  {
    WriteUnitFrame(mem, a, W32, ReadUnit(mem, a, W32) + d);
  }

  /** After one relocation the word reads as its old value plus `d`, modulo 2^32. */
  lemma RelocateWordReads(mem: Memory, a: nat, d: bv64)
    requires Mapped(mem, a, W32)
    ensures Mapped(RelocateWord(mem, a, d), a, W32)
    ensures ReadUnit(RelocateWord(mem, a, d), a, W32) == Trunc(W32, ReadUnit(mem, a, W32) + d)
  {
    ReadAfterWrite(mem, a, W32, ReadUnit(mem, a, W32) + d);
  }

  /**
   * Two R_ARM_RELATIVE entries for the same offset relocate the word
   * twice: the second pass starts from what the first left.
   */
  lemma SameOffsetTwice(mem: Memory, base: Word, d: bv64, e: RelaEntry)
    requires Mapped(mem, RelaAddr(base, e), W32)
    ensures RelaMapped(mem, base, [e, e])
    ensures var a := RelaAddr(base, e);
            Relocated(mem, base, d, [e]) == RelocateWord(mem, a, d) &&
            Mapped(RelocateWord(mem, a, d), a, W32) &&
            Relocated(mem, base, d, [e, e]) == RelocateWord(RelocateWord(mem, a, d), a, d)
  {
    RelocatedLast(mem, base, d, [e]);
    assert [e][..0] == [];
    RelocatedLast(mem, base, d, [e, e]);
    assert [e, e][..1] == [e];
  }

  /**
   * Adding `d` modulo 2^32 to a 32-bit word changes it unless `d` is a
   * multiple of 2^32: with RelocateWordReads and SameOffsetTwice, the second
   * of two entries for one offset moves the word again, so relocation is
   * not idempotent.
   */
  lemma WrapAddMoves(v: bv64, d: bv64)
    requires Fits(W32, v)
    ensures Trunc(W32, d) != 0 ==> Trunc(W32, v + d) != v
  {
  }

  /**
   * apply_rela: walk the entries in order; an R_ARM_RELATIVE entry adds
   * `base` to the word at `base + off`, and the first entry of any other
   * type prints "R!" and spins forever, which is reported here as `halted`
   * with the two characters emitted (what memory holds then can no longer
   * be observed).
   */
  method ApplyRela(mem0: Memory, base: Word, es: seq<RelaEntry>) returns (mem: Memory, halted: bool, out: seq<char>)
    requires ReachedMapped(mem0, base, es)
    ensures halted <==> !AllRelative(es)
    ensures !halted ==> RelaMapped(mem0, base, es) && mem == Relocated(mem0, base, base as bv64, es) && out == []
    ensures halted ==> out == ['R', '!']
  {
    mem, halted, out := mem0, false, [];
    var d := base as bv64;
    var i := 0;
    while i < |es|
      invariant i <= |es| && RelaMapped(mem0, base, es[..i])
      invariant AllRelative(es[..i]) && mem == Relocated(mem0, base, d, es[..i])
    {
      if RelaType(es[i]) != R_ARM_RELATIVE {
        return mem, true, ['R', '!'];
      }
      RelativeNext(es, i);
      PrefixNext(mem0, base, es, i);
      RelocatedNext(mem0, base, d, es, i);
      var a := RelaAddr(base, es[i]);
      mem := RelocateWord(mem, a, d);
      i := i + 1;
    }
    assert es[..i] == es;
  }
}
