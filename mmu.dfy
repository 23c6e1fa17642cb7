/**
 * The MMU set-up of memory.c and memory.h: a flat table of 4096 section
 * descriptors of the ARMv7-A short-descriptor translation-table format
 * (section B3.5.1 of the ARM Architecture Reference Manual ARMv7-A/R), one
 * per 1 MiB of the 32-bit address space, filled by mmu_add_mapping; the
 * cache maintenance by address range; and the SCTLR updates that turn
 * translation and the caches on and off.
 */
module Mmu {
  import opened Wrappers
  import opened Bits
  import opened Cpu

  /** Number of entries of __pgtables: one per 1 MiB section of the 32-bit space. */
  const PGTABLE_ENTRIES: nat := 4096
  const SZ_1M: nat := 0x10_0000
  const CACHE_LINE_SIZE: nat := 64

  // Section descriptor attribute bits (memory.h)
  const ATTR_PXN: bv32 := 0x1             // BIT(0)
  const ATTR_SECTION: bv32 := 0x2         // BIT(1)
  const ATTR_BUFFERABLE: bv32 := 0x4      // BIT(2)
  const ATTR_CACHEABLE: bv32 := 0x8       // BIT(3)
  const ATTR_XN: bv32 := 0x10             // BIT(4)
  const ATTR_DOMAIN: bv32 := 0x1e0        // GENMASK(8, 5)
  const ATTR_IMP: bv32 := 0x200           // BIT(9)
  const ATTR_TEX: bv32 := 0x7000          // GENMASK(14, 12)
  const ATTR_SHARABLE: bv32 := 0x1_0000   // BIT(16)
  const ATTR_NG: bv32 := 0x2_0000         // BIT(17)
  const ATTR_NS: bv32 := 0x8_0000         // BIT(19)

  // Access permissions, in the order AP[0], AP[1], AP[2]
  const AP_NONE: bv32 := 0
  const AP_RW_PL1: bv32 := 1
  const AP_RW_PL1_RO_PL0: bv32 := 2
  const AP_RW_ALL: bv32 := 3
  const AP_RO_PL1: bv32 := 5
  const AP_RO_PL1_PL0: bv32 := 6
  const AP_RO_PL1_PL0_V7: bv32 := 7

  /** The descriptor bits mmu_add_ap writes: bits 10, 11 and 15. */
  const AP_BITS: bv32 := 0x8c00

  /** The ATTR_* masks name single bits or fields that do not overlap, nor overlap the AP bits. */
  lemma AttrLayout()
    ensures ATTR_DOMAIN == GenMask(8, 5) && ATTR_TEX == GenMask(14, 12)
    ensures var attrs := [ATTR_PXN, ATTR_SECTION, ATTR_BUFFERABLE, ATTR_CACHEABLE, ATTR_XN,
                          ATTR_DOMAIN, ATTR_IMP, ATTR_TEX, ATTR_SHARABLE, ATTR_NG, ATTR_NS];
            (forall i, j | 0 <= i < j < |attrs| :: attrs[i] & attrs[j] == 0) &&
            (forall i | 0 <= i < |attrs| :: attrs[i] & AP_BITS == 0)
  {
    assert GenMask(8, 5) == 0x1e0;
    assert GenMask(14, 12) == 0x7000;
  }

  /** Every AP_* value uses perms bits 0 to 2 only. */
  lemma ApValuesFit()
    ensures forall p | p in [AP_NONE, AP_RW_PL1, AP_RW_PL1_RO_PL0, AP_RW_ALL, AP_RO_PL1, AP_RO_PL1_PL0, AP_RO_PL1_PL0_V7] :: p <= 7
  {
  }

  /** AP[0] and AP[1] at bits 10 and 11, AP[2] at bit 15: perms bits 0 to 2 in descriptor position. */
  function ApField(perms: bv32): (f: bv32)
    ensures f & 0x400 != 0 <==> perms & 0x1 != 0
    ensures f & 0x800 != 0 <==> perms & 0x2 != 0
    ensures f & 0x8000 != 0 <==> perms & 0x4 != 0
    ensures f & 0xffff_73ff == 0
  {
    ((perms & 0x3) << 10) | ((perms & 0x4) << 13)
  }

  /**
   * mmu_add_ap: sets or clears descriptor bits 10, 11 and 15 to follow
   * perms bits 0, 1 and 2 (AddApSpec). The masks are the complements of
   * BIT(10), BIT(11) and BIT(15), written out.
   */
  function AddAp(section: bv32, perms: bv32): bv32
  {
    var s0 := if perms & 0x1 != 0 then section | 0x400 else section & 0xffff_fbff;
    var s1 := if perms & 0x2 != 0 then s0 | 0x800 else s0 & 0xffff_f7ff;
    if perms & 0x4 != 0 then s1 | 0x8000 else s1 & 0xffff_7fff
  }

  /** mmu_add_ap's AP bits are perms bits 0 to 2 in place; every other bit (0xffff_73ff) is the input's. */
  lemma AddApSpec(section: bv32, perms: bv32)
    ensures AddAp(section, perms) & AP_BITS == ApField(perms)
    ensures AddAp(section, perms) & 0xffff_73ff == section & 0xffff_73ff
  {
  }

  /** FIELD_PREP(ATTR_DOMAIN, 0) contributes no bit. */
  lemma DomainZero()
    ensures FieldPrep(ATTR_DOMAIN, 0) == 0
  {
  }

  /**
   * The attribute word mmu_add_mapping stores in every entry: the caller's
   * attributes with bits 0 and 1 cleared (0xffff_fffc), the AP bits from
   * `perms`, and SECTION (0x2) and NS (0x8_0000) set; the or-ed in
   * FIELD_PREP(ATTR_DOMAIN, 0) is 0 (DomainZero) and is left out.
   */
  function SectionAttr(perms: bv32, attr: bv32): bv32
  {
    AddAp(attr & 0xffff_fffc, perms) | 0x2 | 0x8_0000
  }

  /** The stored attribute word is a non-secure section descriptor (bits 1:0 are 0b10, NS set). */
  lemma SectionAttrKind(perms: bv32, attr: bv32)
    ensures SectionAttr(perms, attr) & 0x3 == ATTR_SECTION && SectionAttr(perms, attr) & ATTR_NS == ATTR_NS
  {
    SectionBits(AddAp(attr & 0xffff_fffc, perms));
  }

  /** The stored attribute word carries the AP bits of `perms`. */
  lemma SectionAttrAp(perms: bv32, attr: bv32)
    ensures SectionAttr(perms, attr) & AP_BITS == ApField(perms)
  {
    AddApSpec(attr & 0xffff_fffc, perms);
    SectionBits(AddAp(attr & 0xffff_fffc, perms));
  }

  /**
   * Every other bit of the caller's attributes is kept (0xfff7_73fc is the
   * complement of AP_BITS, bits 0 and 1 and NS). FIELD_PREP(ATTR_DOMAIN, 0)
   * is 0, so in particular the domain field is the caller's, not domain 0.
   */
  lemma SectionAttrKeeps(perms: bv32, attr: bv32)
    ensures SectionAttr(perms, attr) & 0xfff7_73fc == attr & 0xfff7_73fc
    ensures SectionAttr(perms, attr) & ATTR_DOMAIN == attr & ATTR_DOMAIN
  {
    AddApSpec(attr & 0xffff_fffc, perms);
    KeptBits(AddAp(attr & 0xffff_fffc, perms), attr);
  }

  /** Or-ing in SECTION and NS sets bits 1 and 19, clears nothing and leaves the AP bits alone. */
  lemma SectionBits(x: bv32)
    ensures (x | 0x2 | 0x8_0000) & 0x3 == 0x2 + (x & 0x1) && (x | 0x2 | 0x8_0000) & 0x8_0000 == 0x8_0000
    ensures (x | 0x2 | 0x8_0000) & 0x8c00 == x & 0x8c00
  {
  }

  /** The bits outside AP_BITS, bits 0 and 1 and NS survive clearing bits 0 and 1 and or-ing in SECTION and NS. */
  lemma KeptBits(x: bv32, attr: bv32)
    requires x & 0xffff_73ff == (attr & 0xffff_fffc) & 0xffff_73ff
    ensures (x | 0x2 | 0x8_0000) & 0xfff7_73fc == attr & 0xfff7_73fc
    ensures (x | 0x2 | 0x8_0000) & 0x1e0 == attr & 0x1e0
  {
  }

  /** `s << 20` in 32 bits: the base address of section `s`. */
  function SectionBase(s: nat): bv32
    requires s < U32
  {
    (s as bv32) << 20
  }

  /** The table after `n` consecutive entries from section `fromIdx` on map the sections from `toIdx` on. */
  function MapSections(t: seq<bv32>, fromIdx: nat, toIdx: nat, n: nat, attr: bv32): (r: seq<bv32>)
    requires fromIdx + n <= |t| && toIdx < PGTABLE_ENTRIES && n <= PGTABLE_ENTRIES
    ensures |r| == |t|
  {
    seq(|t|, i requires 0 <= i < |t| => if fromIdx <= i < fromIdx + n then SectionBase(toIdx + (i - fromIdx)) | attr else t[i])
  }

  /** The arguments of mmu_add_mapping pass its alignment assertions and stay inside the table. */
  predicate MappingOk(from: nat, to: nat, size: nat)
  {
    from < U32 && to < U32 && size < U32 &&
    SectionAligned(to) && SectionAligned(from) && SectionAligned(size) &&
    Sections(from) + Sections(size) <= PGTABLE_ENTRIES
  }

  /** `x >> 20`: the number of whole 1 MiB sections below `x`. */
  function Sections(x: nat): nat
  {
    x / 0x10_0000
  }

  /** `x` is a multiple of SZ_1M. */
  predicate SectionAligned(x: nat)
  {
    x % 0x10_0000 == 0
  }

  /** The C assertion ALIGN_UP(x, SZ_1M) == x holds exactly for the multiples of 1 MiB. */
  lemma AlignedSection(x: nat)
    requires x < U32
    ensures AlignUp(x, SZ_1M) == x <==> SectionAligned(x)
  {
    AlignUpAligned(x, SZ_1M);
    if SectionAligned(x) {
      AlignedFixed(x, SZ_1M);
    }
  }

  /** Writing entry `fromIdx + k` of a table with `k` entries mapped maps `k + 1`. */
  lemma MapSectionsNext(t0: seq<bv32>, before: seq<bv32>, after: seq<bv32>, fromIdx: nat, toIdx: nat, k: nat, attr: bv32)
    requires fromIdx + k <= |t0| && toIdx < PGTABLE_ENTRIES && 0 < k <= PGTABLE_ENTRIES
    requires before == MapSections(t0, fromIdx, toIdx, k - 1, attr)
    requires after == before[fromIdx + k - 1 := SectionBase(toIdx + k - 1) | attr]
    ensures after == MapSections(t0, fromIdx, toIdx, k, attr)
  {
  }

  /** The section indices of a mapping mmu_add_mapping accepts lie inside the table. */
  lemma MappingIndices(from: nat, to: nat, size: nat)
    requires MappingOk(from, to, size)
    ensures Sections(to) < PGTABLE_ENTRIES && Sections(from) + Sections(size) <= PGTABLE_ENTRIES
  {
  }

  /** An identity mapping maps each section of the range to its own base address. */
  lemma IdentitySections(t: seq<bv32>, idx: nat, n: nat, attr: bv32, i: nat)
    requires |t| == PGTABLE_ENTRIES && idx < PGTABLE_ENTRIES && idx + n <= |t| && i < |t|
    ensures idx <= i < idx + n ==> MapSections(t, idx, idx, n, attr)[i] == SectionBase(i) | attr
    ensures !(idx <= i < idx + n) ==> MapSections(t, idx, idx, n, attr)[i] == t[i]
  {
  }

  /** Entry `j` of the `(bus, size)` list of the /arm-io `ranges` property: the words at 3j+1 and 3j+2. */
  function Bus(ranges: seq<bv32>, j: nat): bv32
    requires 3 * j + 3 <= |ranges|
  {
    ranges[3 * j + 1]
  }

  function RangeSize(ranges: seq<bv32>, j: nat): bv32
    requires 3 * j + 3 <= |ranges|
  {
    ranges[3 * j + 2]
  }

  /** The first `k` triples of `ranges` are whole entries that mmu_add_mapping accepts. */
  predicate RangesOk(ranges: seq<bv32>, k: nat)
  {
    3 * k <= |ranges| &&
    forall j | 0 <= j < k :: MappingOk(Bus(ranges, j) as nat, Bus(ranges, j) as nat, RangeSize(ranges, j) as nat)
  }

  /** The attribute word of the device mappings: read-write for all, bufferable. */
  function DeviceAttr(): bv32
  {
    SectionAttr(AP_RW_ALL, ATTR_BUFFERABLE)
  }

  /** The attribute word of the RAM mapping: read-write for all, bufferable, cacheable, sharable. */
  function RamAttr(): bv32
  {
    SectionAttr(AP_RW_ALL, ATTR_BUFFERABLE | ATTR_CACHEABLE | ATTR_SHARABLE)
  }

  /** The zeroed table after the first `k` device ranges have been identity-mapped, in order. */
  function RangesMapped(ranges: seq<bv32>, k: nat): (t: seq<bv32>)
    requires RangesOk(ranges, k)
    ensures |t| == PGTABLE_ENTRIES
  {
    if k == 0 then seq(PGTABLE_ENTRIES, _ => 0)
    else
      var bus, size := Bus(ranges, k - 1) as nat, RangeSize(ranges, k - 1) as nat;
      MapSections(RangesMapped(ranges, k - 1), Sections(bus), Sections(bus), Sections(size), DeviceAttr())
  }

  /** A section that none of the first `k` ranges covers stays an invalid (zero) descriptor. */
  lemma {:induction false} UnmappedStaysZero(ranges: seq<bv32>, k: nat, i: nat)
    requires RangesOk(ranges, k) && i < PGTABLE_ENTRIES
    requires forall j | 0 <= j < k :: !(Sections(Bus(ranges, j) as nat) <= i < Sections(Bus(ranges, j) as nat) + Sections(RangeSize(ranges, j) as nat))
    ensures RangesMapped(ranges, k)[i] == 0
  {
    if k > 0 {
      UnmappedStaysZero(ranges, k - 1, i);
    }
  }

  /** The first `k` device ranges are mapped in order: exactly the first `k - 1` and then range `k - 1`. */
  lemma RangesMappedLast(ranges: seq<bv32>, k: nat)
    requires RangesOk(ranges, k) && k > 0
    ensures RangesOk(ranges, k - 1)
    ensures var bus, size := Bus(ranges, k - 1) as nat, RangeSize(ranges, k - 1) as nat;
            RangesMapped(ranges, k) == MapSections(RangesMapped(ranges, k - 1), Sections(bus), Sections(bus), Sections(size), DeviceAttr())
  {
  }

  /** mmu_init's RAM mapping size: mem_size rounded up to 16 MiB. */
  function RamSize(memSize: nat): nat
    requires memSize < U32
  {
    AlignUp(memSize, 0x100_0000)
  }

  // ---------------------------------------------------------------------------
  // CACHE_RANGE_OP

  const U64: nat := 0x1_0000_0000_0000_0000

  /** `(u64)addr` for a 32-bit pointer: GCC sign-extends, so the upper half of the address space lands just below 2^64. */
  function PointerU64(addr: nat): (r: nat)
    requires addr < U32
    ensures r < U64 && r % U32 == addr
  {
    if addr < 0x8000_0000 then addr
    else
      var r := addr + (U64 - U32);
      DivModUnique(r, U32, 0xffff_ffff, addr);
      r
  }

  /** ceil(length / 64): the lines of `[addr, addr + length)` when nothing wraps. */
  function LineSpan(length: nat): nat
  {
    (length + CACHE_LINE_SIZE - 1) / CACHE_LINE_SIZE
  }

  /**
   * The range starts in the upper half and reaches 2^32: `end = p + length`
   * wraps past 2^64 to a value below `p`, and the loop issues no op.
   */
  predicate WrapsPastTop(addr: nat, length: nat)
  {
    0x8000_0000 <= addr && U32 <= addr + length
  }

  /** How many ops CACHE_RANGE_OP issues before it stops or, for a hanging range, before `p` first wraps. */
  function RangeLines(addr: nat, length: nat): nat
  {
    if WrapsPastTop(addr, length) then 0 else LineSpan(length)
  }

  /**
   * The range's last line lies in the top 64 bytes of the 64-bit space:
   * `p += 64` wraps to a small value that is still below `end`, and the loop
   * never ends (CacheRangeRevisits).
   */
  predicate RangeHangs(addr: nat, length: nat)
    requires addr < U32
  {
    !WrapsPastTop(addr, length) && 0 < length && U64 <= PointerU64(addr) + CACHE_LINE_SIZE * LineSpan(length)
  }

  /**
   * CACHE_RANGE_OP: `p` is the sign-extended pointer, `end = p + length` in
   * u64 arithmetic, and one op is issued at each `p < end`, stepping by 64;
   * an op takes the low 32 bits of `p`. `hangs` reports the loop that never
   * ends, with the ops of its first pass.
   */
  method CacheRange(addr: nat, length: nat) returns (ops: seq<nat>, hangs: bool)
    requires addr < U32 && length < U32
    ensures hangs <==> RangeHangs(addr, length)
    ensures |ops| == RangeLines(addr, length)
    ensures forall k | 0 <= k < |ops| :: ops[k] == (addr + CACHE_LINE_SIZE * k) % U32
  {
    var start := PointerU64(addr);
    var p := start;
    var end := (p + length) % U64;
    if WrapsPastTop(addr, length) {
      DivModUnique(p + length, U64, 1, p + length - U64);
    } else {
      DivModUnique(p + length, U64, 0, p + length);
    }
    ops, hangs := [], false;
    while p < end
      invariant p == start + CACHE_LINE_SIZE * |ops| && p < U64
      invariant WrapsPastTop(addr, length) ==> end < start && ops == []
      invariant !WrapsPastTop(addr, length) ==> end == start + length
      invariant |ops| == 0 || CACHE_LINE_SIZE * (|ops| - 1) < length
      invariant forall k | 0 <= k < |ops| :: ops[k] == (addr + CACHE_LINE_SIZE * k) % U32
      decreases end - p
    {
      OpAddress(addr, start, |ops|);
      ops := ops + [p % U32];
      if U64 <= p + CACHE_LINE_SIZE {
        // `p += 64` wraps: the loop goes round again and never ends
        LineCount(length, |ops|);
        return ops, true;
      }
      p := p + CACHE_LINE_SIZE;
    }
    if !WrapsPastTop(addr, length) {
      LineCount(length, |ops|);
    }
  }

  /** The low 32 bits of the k-th `p` are `addr + 64k` modulo 2^32. */
  lemma OpAddress(addr: nat, start: nat, k: nat)
    requires addr < U32 && start == PointerU64(addr)
    ensures (start + CACHE_LINE_SIZE * k) % U32 == (addr + CACHE_LINE_SIZE * k) % U32
  {
    var x := addr + CACHE_LINE_SIZE * k;
    var q := x / U32;
    if addr >= 0x8000_0000 {
      DivModUnique(start + CACHE_LINE_SIZE * k, U32, q + 0xffff_ffff, x % U32);
    }
  }

  /** `n` lines starting below the end, the next one not, is `ceil(length / 64)` lines. */
  lemma LineCount(length: nat, n: nat)
    requires n == 0 || CACHE_LINE_SIZE * (n - 1) < length
    requires CACHE_LINE_SIZE * n >= length
    ensures n == LineSpan(length)
  {
    if n == 0 {
      DivModUnique(length + CACHE_LINE_SIZE - 1, CACHE_LINE_SIZE, 0, length + CACHE_LINE_SIZE - 1);
    } else {
      var r := length + CACHE_LINE_SIZE - 1 - CACHE_LINE_SIZE * n;
      DivModUnique(length + CACHE_LINE_SIZE - 1, CACHE_LINE_SIZE, n, r);
    }
  }

  /**
   * Why a hanging range never ends: when `p < end` and `p += 64` wraps, the
   * new `p` is still below `end`, no larger than the old one and on the same
   * offset within a line, so the loop reaches the old `p` again.
   */
  lemma CacheRangeRevisits(p: nat, end: nat)
    requires p < end < U64 && U64 <= p + CACHE_LINE_SIZE
    ensures var q := (p + CACHE_LINE_SIZE) % U64;
            q < end && q <= p && q % CACHE_LINE_SIZE == p % CACHE_LINE_SIZE
  {
    DivModUnique(p + CACHE_LINE_SIZE, U64, 1, p + CACHE_LINE_SIZE - U64);
    DivModUnique(p, CACHE_LINE_SIZE, p / CACHE_LINE_SIZE, p % CACHE_LINE_SIZE);
    DivModUnique(p + CACHE_LINE_SIZE - U64, CACHE_LINE_SIZE, p / CACHE_LINE_SIZE + 1 - U64 / CACHE_LINE_SIZE, p % CACHE_LINE_SIZE);
  }

  /** The last 4 KiB below 4 GiB: the sign-extended range wraps past 2^64 and no line is maintained. */
  lemma TopPageSkipped()
    ensures WrapsPastTop(0xffff_f000, 0x1000) && RangeLines(0xffff_f000, 0x1000) == 0
    ensures LineSpan(0x1000) == 64
  {
  }

  /** The top line alone, `[0xffff_ffc0, 0xffff_ffc1)`: the range hangs. */
  lemma TopLineHangs()
    ensures RangeHangs(0xffff_ffc0, 1)
  {
    assert LineSpan(1) == 1;
  }

  /**
   * The intended stepping: one op every 64 bytes from `addr` while below
   * `addr + length`, ceil(length / 64) of them, for every range.
   */
  method CacheRangeIntended(addr: nat, length: nat) returns (ops: seq<nat>)
    ensures |ops| == LineSpan(length)
    ensures forall k | 0 <= k < |ops| :: ops[k] == addr + CACHE_LINE_SIZE * k && ops[k] < addr + length
  {
    var p := addr;
    var end := addr + length;
    ops := [];
    while p < end
      invariant p == addr + CACHE_LINE_SIZE * |ops|
      invariant |ops| == 0 || CACHE_LINE_SIZE * (|ops| - 1) < length
      invariant forall k | 0 <= k < |ops| :: ops[k] == addr + CACHE_LINE_SIZE * k && ops[k] < end
      decreases end - p
    {
      ops := ops + [p];
      p := p + CACHE_LINE_SIZE;
    }
    LineCount(length, |ops|);
  }

  /**
   * Cleaning `__pgtables` (16 KiB) never hangs, and takes 256 lines at
   * `tableAddr + 64k` unless the table sits in the top 16 KiB below 4 GiB,
   * where it takes none.
   */
  lemma TableLines(tableAddr: nat)
    requires tableAddr < U32
    ensures !RangeHangs(tableAddr, 4 * PGTABLE_ENTRIES)
    ensures RangeLines(tableAddr, 4 * PGTABLE_ENTRIES) == if tableAddr >= 0xffff_c000 then 0 else 256
    ensures tableAddr < 0xffff_c000 ==> forall k | 0 <= k < 256 :: (tableAddr + CACHE_LINE_SIZE * k) % U32 == tableAddr + CACHE_LINE_SIZE * k
  {
    assert LineSpan(4 * PGTABLE_ENTRIES) == 256;
  }

  /** mmu_active: translation is on exactly when SCTLR.M, bit 0, is set. */
  predicate MmuActive(cpu: Regs)
    reads cpu
  {
    cpu.sctlr & SCTLR_M != 0
  }

  lemma MmuActiveIsBit0(s: bv32)
    ensures s & SCTLR_M != 0 <==> BitSet(s, 0)
  {
  }

  /** mmu_shutdown: clean the data cache by set/way, then clear SCTLR A, I, C and M. */
  method Shutdown(cpu: Regs)
    modifies cpu`sctlr, cpu`sctlrWrites, cpu`cacheCleans
    ensures cpu.sctlr == old(cpu.sctlr) & !(SCTLR_A | SCTLR_I | SCTLR_C | SCTLR_M)
    ensures cpu.sctlrWrites == old(cpu.sctlrWrites) + [cpu.sctlr]
    ensures cpu.cacheCleans == old(cpu.cacheCleans) + 1
  {
    var sctlr := cpu.sctlr;
    var sctlr2 := sctlr & !(SCTLR_A | SCTLR_I | SCTLR_C | SCTLR_M);
    cpu.CleanAllCaches();
    cpu.WriteSctlr(sctlr2);
  }

  /** The bits mmu_shutdown clears are A, I, C and M; every other SCTLR bit is kept. */
  lemma ShutdownBits(s: bv32, i: bv32)
    ensures BitSet(s & !(SCTLR_A | SCTLR_I | SCTLR_C | SCTLR_M), i) <==> BitSet(s, i) && i != 1 && i != 12 && i != 2 && i != 0
  {
  }

  /**
   * mmu_disable: returns the old SCTLR. With translation off it does
   * nothing else; otherwise it cleans the data cache and clears I, C and M.
   */
  method Disable(cpu: Regs) returns (r: bv32)
    modifies cpu`sctlr, cpu`sctlrWrites, cpu`cacheCleans
    ensures r == old(cpu.sctlr)
    ensures r & SCTLR_M == 0 ==> cpu.sctlr == r && cpu.sctlrWrites == old(cpu.sctlrWrites) && cpu.cacheCleans == old(cpu.cacheCleans)
    ensures r & SCTLR_M != 0 ==> cpu.sctlr == r & !(SCTLR_I | SCTLR_C | SCTLR_M) &&
                                  cpu.sctlrWrites == old(cpu.sctlrWrites) + [cpu.sctlr] &&
                                  cpu.cacheCleans == old(cpu.cacheCleans) + 1
    ensures !MmuActive(cpu)
  {
    r := cpu.sctlr;
    if r & SCTLR_M == 0 {
      return r;
    }
    cpu.CleanAllCaches();
    cpu.WriteSctlr(r & !(SCTLR_I | SCTLR_C | SCTLR_M));
  }

  /** mmu_restore: write back a saved SCTLR. */
  method Restore(cpu: Regs, state: bv32)
    modifies cpu`sctlr, cpu`sctlrWrites
    ensures cpu.sctlr == state && cpu.sctlrWrites == old(cpu.sctlrWrites) + [state]
  {
    cpu.WriteSctlr(state);
  }

  /** mmu_restore(mmu_disable()) leaves SCTLR as it found it. */
  method DisableThenRestore(cpu: Regs)
    modifies cpu`sctlr, cpu`sctlrWrites, cpu`cacheCleans
    ensures cpu.sctlr == old(cpu.sctlr)
  {
    var saved := Disable(cpu);
    Restore(cpu, saved);
  }

  /** The SCTLR value mmu_init writes: alignment checks off; branch prediction, translation and the I-cache on. */
  function InitSctlr(s: bv32): (r: bv32)
  {
    (s & 0xffff_fffd) | (SCTLR_Z | SCTLR_M | SCTLR_I)   // ~SCTLR_A written out
  }

  /** mmu_init clears A, sets Z, M and I, and keeps every other SCTLR bit (0xffff_e7fc). */
  lemma InitSctlrBits(s: bv32)
    ensures InitSctlr(s) & SCTLR_A == 0
    ensures InitSctlr(s) & 0x1801 == SCTLR_Z | SCTLR_M | SCTLR_I
    ensures InitSctlr(s) & 0xffff_e7fc == s & 0xffff_e7fc
  {
  }

  /** __pgtables, and the cache lines the last range clean wrote back. */
  class PageTables {
    var entries: array<bv32>
    var cleaned: seq<nat>

    predicate Valid()
      reads this
    {
      entries.Length == PGTABLE_ENTRIES
    }

    constructor ()
      ensures Valid() && fresh(entries) && cleaned == []
    {
      entries := new bv32[PGTABLE_ENTRIES](_ => 0);
      cleaned := [];
    }

    /**
     * mmu_add_mapping: `size >> 20` consecutive entries from `from >> 20` on
     * map the sections from `to >> 20` on, each with the attribute word
     * SectionAttr(perms, attr); no other entry changes.
     */
    method AddMapping(from: nat, to: nat, size: nat, perms: bv32, attr: bv32)
      requires Valid() && MappingOk(from, to, size)
      modifies entries
      ensures entries[..] == MapSections(old(entries[..]), Sections(from), Sections(to), Sections(size), SectionAttr(perms, attr))
    {
      var a := SectionAttr(perms, attr);
      MappingIndices(from, to, size);
      FillSections(Sections(from), Sections(to), Sections(size), a);
    }

    /** The loop of mmu_add_mapping: `n` entries from `fromIdx` on get the sections from `toIdx` on, with `a`. */
    method FillSections(fromIdx: nat, toIdx: nat, n: nat, a: bv32)
      requires Valid() && fromIdx + n <= PGTABLE_ENTRIES && toIdx < PGTABLE_ENTRIES
      modifies entries
      ensures entries[..] == MapSections(old(entries[..]), fromIdx, toIdx, n, a)
    {
      ghost var t0 := entries[..];
      var index: nat := n;
      var fromOff: nat := fromIdx;
      var toOff: nat := toIdx;
      while index > 0
        invariant fromOff == fromIdx + (n - index) && toOff == toIdx + (n - index) && index <= n
        invariant entries[..] == MapSections(t0, fromIdx, toIdx, n - index, a)
      {
        ghost var before := entries[..];
        entries[fromOff] := SectionBase(toOff) | a;
        index := index - 1;
        fromOff := fromOff + 1;
        toOff := toOff + 1;
        MapSectionsNext(t0, before, entries[..], fromIdx, toIdx, n - index, a);
      }
    }

    /** The first half of mmu_init: zero the table, then identity-map the first `cnt` device ranges in order. */
    method MapDevices(rs: seq<bv32>, cnt: nat)
      requires Valid() && RangesOk(rs, cnt)
      modifies entries
      ensures entries[..] == RangesMapped(rs, cnt)
    {
      forall i | 0 <= i < entries.Length {
        entries[i] := 0;
      }
      var k := 0;
      while k < cnt
        invariant k <= cnt && entries[..] == RangesMapped(rs, k)
      {
        AddMapping(Bus(rs, k) as nat, Bus(rs, k) as nat, RangeSize(rs, k) as nat, AP_RW_ALL, ATTR_BUFFERABLE);
        k := k + 1;
      }
    }

    /**
     * mmu_init: without the /arm-io `ranges` property it does nothing.
     * Otherwise it zeroes the table, identity-maps each `(bus, size)`
     * device range, identity-maps RAM from phys_base over mem_size rounded
     * up to 16 MiB, sets DACR, TTBR0 and TTBCR, writes the table back to
     * memory, and turns on translation, the I-cache and branch prediction.
     */
    method Init(cpu: Regs, ranges: Option<seq<bv32>>, rangesLen: nat, physBase: nat, memSize: nat, tableAddr: nat)
      requires Valid() && physBase < U32 && memSize < U32 && tableAddr < U32
      requires ranges != None ==> RangesOk(ranges.value, rangesLen / 12)
      requires ranges != None ==> MappingOk(physBase, physBase, RamSize(memSize))
      modifies entries, this`cleaned, cpu`sctlr, cpu`sctlrWrites, cpu`dacr, cpu`ttbr0, cpu`ttbcr
      ensures ranges == None ==> entries[..] == old(entries[..]) && cleaned == old(cleaned) &&
                                 cpu.sctlr == old(cpu.sctlr) && cpu.sctlrWrites == old(cpu.sctlrWrites) &&
                                 cpu.dacr == old(cpu.dacr) && cpu.ttbr0 == old(cpu.ttbr0) && cpu.ttbcr == old(cpu.ttbcr)
      ensures ranges != None ==>
                var idx := Sections(physBase);
                entries[..] == MapSections(RangesMapped(ranges.value, rangesLen / 12), idx, idx, Sections(RamSize(memSize)), RamAttr()) &&
                cpu.dacr == 0x5555_5555 && cpu.ttbr0 == tableAddr as bv32 && cpu.ttbcr == 0 &&
                |cleaned| == (if tableAddr >= 0xffff_c000 then 0 else 256) &&
                (forall k | 0 <= k < |cleaned| :: cleaned[k] == tableAddr + CACHE_LINE_SIZE * k) &&
                cpu.sctlr == InitSctlr(old(cpu.sctlr)) && cpu.sctlrWrites == old(cpu.sctlrWrites) + [cpu.sctlr]
    {
      if ranges == None {
        return;
      }
      MapDevices(ranges.value, rangesLen / 12);
      AddMapping(physBase, physBase, RamSize(memSize), AP_RW_ALL, ATTR_BUFFERABLE | ATTR_CACHEABLE | ATTR_SHARABLE);
      cpu.dacr := 0x5555_5555;
      cpu.ttbr0 := tableAddr as bv32;
      cpu.ttbcr := 0;
      var hangs;
      cleaned, hangs := CacheRange(tableAddr, 4 * PGTABLE_ENTRIES);
      TableLines(tableAddr);
      cpu.WriteSctlr(InitSctlr(cpu.sctlr));
    }
  }
}
