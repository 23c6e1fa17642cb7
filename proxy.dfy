/**
 * The monitor command dispatcher proxy_process (proxy.c): one request, an
 * opcode and five argument words, becomes one reply. Memory commands run
 * under a transient fault guard chosen by their risk class, and the guard
 * cell is put back afterwards; P_SET_EXC_GUARD replaces the value put back.
 *
 * The dispatcher works on the monitor's state (Machine.Monitor), the CP15
 * registers (Cpu.Regs), the boot arguments (Boot.BootArgs) and the kernel
 * staging state (Kboot.KbootState). Calls into code this model does not
 * contain return values drawn from a `Foreign` record.
 */
module Proxy {
  import opened Wrappers
  import opened Bits
  import opened Mem
  import opened Exception
  import opened Machine
  import opened Cpu
  import Mmu
  import Boot
  import Kboot

  // ---------------------------------------------------------------------------
  // Requests and replies

  /**
   * The opcodes, grouped by what their arm of the switch does.
   * `Unsupported` stands for every opcode answered with S_BADCMD and
   * nothing else: the EL0/EL1/GL calls, P_VECTOR, the SIMD state commands,
   * P_DC_ZVA, the SMP call family, the PMGR family, the hypervisor,
   * framebuffer, PCIe, NVMe, display, DART, DAPF, cpufreq and tunables
   * commands, and any value the switch does not name.
   */
  datatype Opcode =
    | Nop | Exit | SetExcGuard | GetExcCount | Reboot | Sleep | El3Call
    | Access(k: AccessKind, w: Width)
    | Paging(p: PagingOp)
    | Staging(s: StagingOp)
    | XzDec | GzDec
    | Valued(v: ValuedOp)
    | Untracked(u: UntrackedOp)
    | Unsupported(code: nat)

  /** P_WRITEn, P_READn, P_SETn, P_CLEARn, P_MASKn, P_WRITEREADn, P_MEMCPYn and P_MEMSETn. */
  datatype AccessKind = WriteOp | ReadOp | SetOp | ClearOp | MaskOp | WriteReadOp | MemcpyOp | MemsetOp

  /** P_MMU_INIT, P_MMU_SHUTDOWN, P_MMU_DISABLE and P_MMU_RESTORE. */
  datatype PagingOp = MmuInit | MmuShutdown | MmuDisable | MmuRestore

  /** P_TOP_OF_MEMORY_ALLOC and the kboot commands whose state the model holds. */
  datatype StagingOp = TopOfMemoryAlloc | KbootBoot | KbootSetChosen | KbootSetInitrd | KbootGetDt

  /** The commands whose retval is the result of a call into code outside the model. */
  datatype ValuedOp =
    | Call | GetBootargs | GetBase | HeapblockAlloc | Malloc | Memalign | KbootPrepareDt
    | IodevCanRead | IodevCanWrite | IodevRead | IodevWrite | IodevWhoami

  /** The commands that reply S_OK with retval 0 and change nothing the model holds. */
  datatype UntrackedOp =
    | SetBaud | Udelay | Cache(c: CacheOp) | MmuInitSecondary | SmpStart | SmpStop | Free | IodevSetUsage

  /** The cache maintenance commands that reach a cache operation. */
  datatype CacheOp = IcIalluis | IcIallu | IcIvau | DcIvac | DcIsw | DcCsw | DcCisw | DcCvac | DcCvau | DcCivac

  type Args = s: seq<bv64> | |s| == 5 witness [0, 0, 0, 0, 0]

  datatype Request = Request(op: Opcode, args: Args)

  datatype Status = S_OK | S_BADCMD

  datatype Reply = Reply(op: Opcode, status: Status, retval: bv64)

  /**
   * What the calls into code outside the model return: the result word of
   * a call whose effect is not modelled, XzDecode's output length (None
   * when it fails), tinf_gzip_uncompress's status (the 32-bit image of the
   * C int it returns, as the 32-bit size_t that receives it holds it) and
   * output length, the NUL-terminated string at a 32-bit address (None
   * for NULL), the `ranges` property of the device tree's `/arm-io` node
   * as u32 cells (None when the node or the property is missing), and the
   * address the linker gave `__pgtables`.
   */
  datatype Foreign = Foreign(
    answer: (Opcode, Args) -> bv64,
    xz: Args -> Option<bv32>,
    gz: Args -> (bv32, bv32),
    cstr: nat -> Option<string>,
    ranges: Option<seq<bv32>>,
    pgtables: Boot.Word)

  // ---------------------------------------------------------------------------
  // C conversions of an argument word

  /** An argument word taken as a 32-bit address, size_t or enum: its low 32 bits. */
  function Low32(x: bv64): (r: nat)
    ensures r < U32
  {
    x as nat % U32
  }

  /** An argument word taken as a 32-bit register value: its low 32 bits. */
  function Lo(x: bv64): bv32
  {
    (x & 0xffff_ffff) as bv32
  }

  /** An argument word returned as a C `int`: its low 32 bits, two's complement. */
  function Int32(x: bv64): (r: int)
    ensures -0x8000_0000 <= r < 0x8000_0000
    ensures r % U32 == Low32(x)
  {
    var lo := Low32(x);
    if lo < 0x8000_0000 then lo else lo - U32
  }

  /** A C integer stored into the 64-bit retval: its two's-complement image. */
  function Word(x: int): bv64
  {
    (x % 0x1_0000_0000_0000_0000) as bv64
  }

  /**
   * A 32-bit pointer (the low half of `p`) cast to the 64-bit retval: GCC
   * sign-extends a pointer narrower than the integer type, so an address
   * from 2^31 up arrives with its high half all ones.
   */
  function PointerWord(p: bv64): bv64
  {
    if p & 0x8000_0000 == 0 then p & 0xffff_ffff else p | 0xffff_ffff_0000_0000
  }

  /** The cast keeps the pointer's 32 bits. */
  lemma PointerWordLow(p: bv64)
    ensures PointerWord(p) & 0xffff_ffff == p & 0xffff_ffff
  {
    if p & 0x8000_0000 == 0 {
      calc { PointerWord(p) & 0xffff_ffff; (p & 0xffff_ffff) & 0xffff_ffff; }
    } else {
      calc { PointerWord(p) & 0xffff_ffff; (p | 0xffff_ffff_0000_0000) & 0xffff_ffff; }
    }
  }

  /** The cast fills the high half with copies of bit 31. */
  lemma PointerWordHigh(p: bv64)
    ensures PointerWord(p) & 0xffff_ffff_0000_0000 == if p & 0x8000_0000 == 0 then 0 else 0xffff_ffff_0000_0000
  {
  }

  /** A pointer below 2^31 arrives unchanged; one from 2^31 up does not. */
  lemma PointerWordExtends()
    ensures PointerWord(0x1000) == 0x1000
    ensures PointerWord(0x8000_0000) == 0xffff_ffff_8000_0000
  {
  }

  /** The device-tree pointer `dt` as P_KBOOT_GET_DT returns it: a 32-bit address, sign-extended. */
  function DtPointer(dt: nat): bv64
  {
    PointerWord((dt % U32) as bv64)
  }

  /** The value P_EXIT hands back to the caller: args[0] when it is non-zero, else 1. */
  function ExitCode(a: bv64): int
  {
    if a != 0 then Int32(a) else 1
  }

  /** Only the low 32 bits of args[0] survive P_EXIT: 2^32 is non-zero, yet comes back as 0. */
  lemma ExitCodeTruncates()
    ensures ExitCode(0x1_0000_0000) == 0
    ensures ExitCode(0x1_0000_0005) == 5 && ExitCode(0xffff_ffff) == -1
  {
  }

  // ---------------------------------------------------------------------------
  // Risk classes

  /** The guard a command installs before it touches memory; None for a command that touches none. */
  function Risk(op: Opcode): (g: Option<bv32>)
    ensures g == Some(GUARD_SKIP) <==> op.Access? && op.k == WriteOp
    ensures g == Some(GUARD_RETURN) <==> op.Access? && (op.k == MemcpyOp || op.k == MemsetOp)
    ensures g == Some(GUARD_MARK) <==> op.Access? && op.k != WriteOp && op.k != MemcpyOp && op.k != MemsetOp
  {
    match op
    case Access(WriteOp, _) => Some(GUARD_SKIP)
    case Access(MemcpyOp, _) | Access(MemsetOp, _) => Some(GUARD_RETURN)
    case Access(_, _) => Some(GUARD_MARK)
    case _ => None
  }

  /** No risk-class guard reboots on a fault: each recovers in its own way. */
  lemma RiskRecovers(op: Opcode)
    requires op.Access?
    ensures op.k == WriteOp ==> RecoveryFor(Risk(op).value) == Skip
    ensures op.k == MemcpyOp || op.k == MemsetOp ==> RecoveryFor(Risk(op).value) == Return
    ensures op.k != WriteOp && op.k != MemcpyOp && op.k != MemsetOp ==> RecoveryFor(Risk(op).value) == Mark
  {
  }

  /** The commands answered with S_BADCMD alone. */
  predicate Rejected(op: Opcode)
  {
    op.Sleep? || op.El3Call? || op.Unsupported?
  }

  // ---------------------------------------------------------------------------
  // Decoder replies

  const ALL_ONES: bv64 := 0xffff_ffff_ffff_ffff

  /** The P_XZDEC retval: the output length, or ~0L when XzDecode fails. */
  function XzRetval(o: Option<bv32>): (r: bv64)
    ensures r == ALL_ONES <==> o == None
    ensures o != None ==> r < 0x1_0000_0000 && r as bv32 == o.value
  {
    if o.Some? then o.value as bv64 else ALL_ONES
  }

  /**
   * The P_GZDEC retval: the tinf status when it is not TINF_OK (0), else
   * the output length. Either way it passes through a 32-bit size_t, so the
   * high half of the retval is zero: a negative status such as -3 reaches
   * the host as 0xffff_fffd, not sign-extended.
   */
  function GzRetval(status: bv32, len: bv32): (r: bv64)
    ensures r < 0x1_0000_0000
    ensures status == 0 ==> r as bv32 == len
    ensures status != 0 ==> r as bv32 == status && r != 0
  {
    if status != 0 then status as bv64 else len as bv64
  }

  // ---------------------------------------------------------------------------
  // Memory commands

  /** The number of units a memcpyN/memsetN size covers: size / unit bytes. */
  function Units(size: bv64, w: Width): nat
  {
    Low32(size) / Bytes(w)
  }

  // What each memory command leaves behind, from the memory `mem0` and
  // fault count `c0` it started with: the new memory `mem`, count `c` and
  // retval. A faulting single-unit access is counted once per load or
  // store; a bulk command stops at the first unit that faults and counts
  // it once.

  /** writeN: a faulting store is dropped. */
  predicate StoreOutcome(w: Width, args: Args, mem0: Memory, c0: int, mem: Memory, c: int, retval: bv64)
  {
    var a := Low32(args[0]);
    retval == 0 &&
    if Mapped(mem0, a, w) then mem == WriteUnit(mem0, a, w, args[1]) && c == c0
    else mem == mem0 && c == c0 + 1
  }

  /** readN: a faulting load yields all ones. */
  predicate LoadOutcome(w: Width, args: Args, mem0: Memory, c0: int, mem: Memory, c: int, retval: bv64)
  {
    var a := Low32(args[0]);
    mem == mem0 &&
    if Mapped(mem0, a, w) then retval == ReadUnit(mem0, a, w) && c == c0
    else retval == Ones(w) && c == c0 + 1
  }

  /** The unit setN, clearN or maskN stores, from the unit `cur` it loaded. */
  function Modified(k: AccessKind, w: Width, cur: bv64, args: Args): bv64
  {
    if k == SetOp then SetValue(w, cur, args[1])
    else if k == ClearOp then ClearValue(w, cur, args[1])
    else MaskValue(w, cur, args[1], args[2])
  }

  /**
   * setN, clearN or maskN: the updated unit is stored and returned; when
   * the unit faults, the load yields all ones, the store is dropped and the
   * update of all ones is the retval.
   */
  predicate ModifyOutcome(k: AccessKind, w: Width, args: Args, mem0: Memory, c0: int, mem: Memory, c: int, retval: bv64)
  {
    var a := Low32(args[0]);
    if Mapped(mem0, a, w) then
      retval == Modified(k, w, ReadUnit(mem0, a, w), args) && mem == WriteUnit(mem0, a, w, retval) && c == c0
    else mem == mem0 && retval == Modified(k, w, Ones(w), args) && c == c0 + 2
  }

  /** writereadN: the value stored, cut to the unit, is read back. */
  predicate WriteReadOutcome(w: Width, args: Args, mem0: Memory, c0: int, mem: Memory, c: int, retval: bv64)
  {
    var a := Low32(args[0]);
    if Mapped(mem0, a, w) then retval == Trunc(w, args[1]) && mem == WriteUnit(mem0, a, w, args[1]) && c == c0
    else mem == mem0 && retval == Ones(w) && c == c0 + 2
  }

  /** memcpyN: the units up to the first that faults are copied. */
  predicate CopyOutcome(w: Width, args: Args, mem0: Memory, c0: int, mem: Memory, c: int, retval: bv64)
  {
    var a, s, n := Low32(args[0]), Low32(args[1]), Units(args[2], w);
    var u := CopyableUnits(mem0, a, s, Bytes(w), n);
    retval == 0 && mem == Copy(mem0, a, s, Bytes(w), u) && c == c0 + (if u == n then 0 else 1)
  }

  /** memsetN: the units up to the first that faults are filled. */
  predicate FillOutcome(w: Width, args: Args, mem0: Memory, c0: int, mem: Memory, c: int, retval: bv64)
  {
    var a, n := Low32(args[0]), Units(args[2], w);
    var u := MappedUnits(mem0, a, Bytes(w), n);
    retval == 0 && mem == Fill(mem0, a, w, args[1], u) && c == c0 + (if u == n then 0 else 1)
  }

  /** What the memory command of kind `k` and width `w` leaves behind. */
  predicate AccessOutcome(k: AccessKind, w: Width, args: Args, mem0: Memory, c0: int, mem: Memory, c: int, retval: bv64)
  {
    match k
    case WriteOp => StoreOutcome(w, args, mem0, c0, mem, c, retval)
    case ReadOp => LoadOutcome(w, args, mem0, c0, mem, c, retval)
    case SetOp | ClearOp | MaskOp => ModifyOutcome(k, w, args, mem0, c0, mem, c, retval)
    case WriteReadOp => WriteReadOutcome(w, args, mem0, c0, mem, c, retval)
    case MemcpyOp => CopyOutcome(w, args, mem0, c0, mem, c, retval)
    case MemsetOp => FillOutcome(w, args, mem0, c0, mem, c, retval)
  }

  /** writeN under GUARD_SKIP. The guard is left installed. */
  method StoreCmd(m: Monitor, w: Width, args: Args) returns (retval: bv64)
    requires !m.rebooted
    modifies m
    ensures m.guard == GUARD_SKIP && !m.rebooted
    ensures old(m.touches) <= m.touches && Guarded(m.touches, |old(m.touches)|, GUARD_SKIP)
    ensures StoreOutcome(w, args, old(m.mem), old(m.excCount), m.mem, m.excCount, retval)
  {
    m.guard := GUARD_SKIP;
    m.Write(Low32(args[0]), w, args[1]);
    retval := 0;
  }

  /** readN under GUARD_MARK. */
  method LoadCmd(m: Monitor, w: Width, args: Args) returns (retval: bv64)
    requires !m.rebooted
    modifies m
    ensures m.guard == GUARD_MARK && !m.rebooted
    ensures old(m.touches) <= m.touches && Guarded(m.touches, |old(m.touches)|, GUARD_MARK)
    ensures LoadOutcome(w, args, old(m.mem), old(m.excCount), m.mem, m.excCount, retval)
  {
    m.guard := GUARD_MARK;
    retval := m.Read(Low32(args[0]), w);
  }

  /** setN under GUARD_MARK: a faulting unit reads as all ones, and all ones with bits set are all ones. */
  method SetCmd(m: Monitor, w: Width, args: Args) returns (retval: bv64)
    requires !m.rebooted
    modifies m
    ensures m.guard == GUARD_MARK && !m.rebooted
    ensures old(m.touches) <= m.touches && Guarded(m.touches, |old(m.touches)|, GUARD_MARK)
    ensures ModifyOutcome(SetOp, w, args, old(m.mem), old(m.excCount), m.mem, m.excCount, retval)
  {
    m.guard := GUARD_MARK;
    retval := m.Set(Low32(args[0]), w, args[1]);
    SetOnes(w, args[1]);
  }

  /** clearN under GUARD_MARK. */
  method ClearCmd(m: Monitor, w: Width, args: Args) returns (retval: bv64)
    requires !m.rebooted
    modifies m
    ensures m.guard == GUARD_MARK && !m.rebooted
    ensures old(m.touches) <= m.touches && Guarded(m.touches, |old(m.touches)|, GUARD_MARK)
    ensures ModifyOutcome(ClearOp, w, args, old(m.mem), old(m.excCount), m.mem, m.excCount, retval)
  {
    m.guard := GUARD_MARK;
    retval := m.Clear(Low32(args[0]), w, args[1]);
  }

  /** maskN under GUARD_MARK. */
  method MaskCmd(m: Monitor, w: Width, args: Args) returns (retval: bv64)
    requires !m.rebooted
    modifies m
    ensures m.guard == GUARD_MARK && !m.rebooted
    ensures old(m.touches) <= m.touches && Guarded(m.touches, |old(m.touches)|, GUARD_MARK)
    ensures ModifyOutcome(MaskOp, w, args, old(m.mem), old(m.excCount), m.mem, m.excCount, retval)
  {
    m.guard := GUARD_MARK;
    retval := m.Mask(Low32(args[0]), w, args[1], args[2]);
  }

  /** writereadN under GUARD_MARK: store args[1], then load it back as the retval. */
  method WriteReadCmd(m: Monitor, w: Width, args: Args) returns (retval: bv64)
    requires !m.rebooted
    modifies m
    ensures m.guard == GUARD_MARK && !m.rebooted
    ensures old(m.touches) <= m.touches && Guarded(m.touches, |old(m.touches)|, GUARD_MARK)
    ensures WriteReadOutcome(w, args, old(m.mem), old(m.excCount), m.mem, m.excCount, retval)
  {
    m.guard := GUARD_MARK;
    retval := m.WriteRead(Low32(args[0]), w, args[1]);
  }

  /** memcpyN over `size / unit` units under GUARD_RETURN: a fault ends the loop. */
  method CopyCmd(m: Monitor, w: Width, args: Args) returns (retval: bv64)
    requires !m.rebooted
    modifies m
    ensures m.guard == GUARD_RETURN && !m.rebooted
    ensures old(m.touches) <= m.touches && Guarded(m.touches, |old(m.touches)|, GUARD_RETURN)
    ensures CopyOutcome(w, args, old(m.mem), old(m.excCount), m.mem, m.excCount, retval)
  {
    m.guard := GUARD_RETURN;
    m.MemCpy(Low32(args[0]), Low32(args[1]), w, Units(args[2], w));
    retval := 0;
  }

  /** memsetN over `size / unit` units under GUARD_RETURN: a fault ends the loop. */
  method FillCmd(m: Monitor, w: Width, args: Args) returns (retval: bv64)
    requires !m.rebooted
    modifies m
    ensures m.guard == GUARD_RETURN && !m.rebooted
    ensures old(m.touches) <= m.touches && Guarded(m.touches, |old(m.touches)|, GUARD_RETURN)
    ensures FillOutcome(w, args, old(m.mem), old(m.excCount), m.mem, m.excCount, retval)
  {
    m.guard := GUARD_RETURN;
    m.MemSet(Low32(args[0]), w, args[1], Units(args[2], w));
    retval := 0;
  }

  /** The memory commands: the risk-class guard is installed before the first access and is in force at every one. */
  method AccessCmd(m: Monitor, op: Opcode, args: Args) returns (retval: bv64)
    requires !m.rebooted && op.Access?
    modifies m
    ensures !m.rebooted && m.guard == old(m.guard)
    ensures old(m.touches) <= m.touches && Guarded(m.touches, |old(m.touches)|, Risk(op).value)
    ensures AccessOutcome(op.k, op.w, args, old(m.mem), old(m.excCount), m.mem, m.excCount, retval)
  {
    var guardSave := m.guard;
    match op.k {
      case WriteOp => retval := StoreCmd(m, op.w, args);
      case ReadOp => retval := LoadCmd(m, op.w, args);
      case SetOp => retval := SetCmd(m, op.w, args);
      case ClearOp => retval := ClearCmd(m, op.w, args);
      case MaskOp => retval := MaskCmd(m, op.w, args);
      case WriteReadOp => retval := WriteReadCmd(m, op.w, args);
      case MemcpyOp => retval := CopyCmd(m, op.w, args);
      case MemsetOp => retval := FillCmd(m, op.w, args);
    }
    m.guard := guardSave;
  }

  // ---------------------------------------------------------------------------
  // MMU and kernel-staging commands

  /** The byte length mmu_init reads with the `ranges` property: four bytes a cell. */
  function RangesLen(ranges: seq<bv32>): nat
  {
    4 * |ranges|
  }

  /**
   * The assertions of mmu_add_mapping hold for every device range of the
   * `ranges` property and for the RAM mapping mmu_init adds after them.
   */
  predicate MmuInitOk(ranges: seq<bv32>, physBase: nat, memSize: nat)
    requires memSize < U32
  {
    Mmu.RangesOk(ranges, RangesLen(ranges) / 12) && Mmu.MappingOk(physBase, physBase, Mmu.RamSize(memSize))
  }

  /** The section table mmu_init builds: the device ranges in order, then RAM from phys_base. */
  function InitTable(ranges: seq<bv32>, physBase: nat, memSize: nat): seq<bv32>
    requires memSize < U32 && MmuInitOk(ranges, physBase, memSize)
  {
    var idx := Mmu.Sections(physBase);
    Mmu.MapSections(Mmu.RangesMapped(ranges, RangesLen(ranges) / 12), idx, idx, Mmu.Sections(Mmu.RamSize(memSize)), Mmu.RamAttr())
  }

  /**
   * P_IC_IVAU, P_DC_IVAC, P_DC_CVAC, P_DC_CVAU and P_DC_CIVAC run the cache
   * range loop over `(void *)args[0]` and `(size_t)args[1]`. With the top
   * line of the address space as the range, that loop never ends, so the
   * command never replies.
   */
  lemma CacheCmdCanHang(args: Args)
    requires args[0] == 0xffff_ffc0 && args[1] == 1
    ensures Mmu.RangeHangs(Low32(args[0]), Low32(args[1]))
  {
    assert Low32(args[0]) == 0xffff_ffc0 && Low32(args[1]) == 1;
    Mmu.TopLineHangs();
  }

  /**
   * P_MMU_INIT: mmu_init over the device tree's `ranges` property and the
   * boot arguments. Without the property nothing changes; otherwise the
   * section table is built and translation is turned on.
   */
  method MmuInitCmd(cpu: Regs, pt: Mmu.PageTables, ba: Boot.BootArgs, fx: Foreign)
    requires pt.Valid() && ba.Valid()
    requires fx.ranges != None ==> MmuInitOk(fx.ranges.value, ba.physBase, ba.memSize)
    modifies cpu`sctlr, cpu`sctlrWrites, cpu`dacr, cpu`ttbr0, cpu`ttbcr, pt.entries, pt`cleaned
    ensures pt.Valid()
    ensures fx.ranges == None ==>
      pt.entries[..] == old(pt.entries[..]) && pt.cleaned == old(pt.cleaned) &&
      cpu.sctlr == old(cpu.sctlr) && cpu.sctlrWrites == old(cpu.sctlrWrites) &&
      cpu.dacr == old(cpu.dacr) && cpu.ttbr0 == old(cpu.ttbr0) && cpu.ttbcr == old(cpu.ttbcr)
    ensures fx.ranges != None ==>
      pt.entries[..] == InitTable(fx.ranges.value, ba.physBase, ba.memSize) &&
      cpu.dacr == 0x5555_5555 && cpu.ttbr0 == fx.pgtables as bv32 && cpu.ttbcr == 0 &&
      |pt.cleaned| == (if fx.pgtables >= 0xffff_c000 then 0 else 256) && cpu.sctlr == Mmu.InitSctlr(old(cpu.sctlr)) && cpu.sctlrWrites == old(cpu.sctlrWrites) + [cpu.sctlr]
  {
    pt.Init(cpu, fx.ranges, if fx.ranges == None then 0 else RangesLen(fx.ranges.value), ba.physBase, ba.memSize, fx.pgtables);
  }

  /**
   * P_MMU_SHUTDOWN, P_MMU_DISABLE and P_MMU_RESTORE: mmu_disable's old
   * SCTLR is the retval, mmu_restore writes args[0] back. None of them
   * touches the section table or the translation registers.
   */
  method PagingCmd(cpu: Regs, op: PagingOp, args: Args) returns (retval: bv64)
    requires !op.MmuInit?
    modifies cpu`sctlr, cpu`sctlrWrites, cpu`cacheCleans
    ensures op.MmuShutdown? ==>
      retval == 0 && cpu.sctlr == old(cpu.sctlr) & !(SCTLR_A | SCTLR_I | SCTLR_C | SCTLR_M) &&
      cpu.cacheCleans == old(cpu.cacheCleans) + 1
    ensures op.MmuDisable? ==> retval == old(cpu.sctlr) as bv64 && !Mmu.MmuActive(cpu)
    ensures op.MmuRestore? ==> retval == 0 && cpu.sctlr == Lo(args[0]) && cpu.cacheCleans == old(cpu.cacheCleans)
  {
    retval := 0;
    match op {
      case MmuShutdown =>
        Mmu.Shutdown(cpu);
      case MmuDisable =>
        var s := Mmu.Disable(cpu);
        retval := s as bv64;
      case MmuRestore =>
        Mmu.Restore(cpu, Lo(args[0]));
    }
  }

  /** P_TOP_OF_MEMORY_ALLOC: the retval is the address of the block carved off the top of memory. */
  method TopAllocCmd(ba: Boot.BootArgs, args: Args) returns (retval: bv64)
    requires ba.Valid()
    modifies ba`memSize, ba`guardPlaced
    ensures ba.Valid()
    ensures retval == Boot.BlockAddress(ba.physBase, old(ba.memSize), Low32(args[0]), old(ba.guardPlaced)) as bv64
    ensures ba.memSize == Boot.LoweredSize(old(ba.memSize), Low32(args[0]), old(ba.guardPlaced))
  {
    var p := ba.TopOfMemoryAlloc(Low32(args[0]));
    retval := p as bv64;
  }

  /**
   * P_KBOOT_SET_CHOSEN: -1 (all ones in the retval) when the name cannot be
   * read or the table is full, else the slot that now holds the pair.
   */
  method SetChosenCmd(ks: Kboot.KbootState, fx: Foreign, args: Args) returns (retval: bv64)
    requires ks.Valid()
    modifies ks.chosen
    ensures ks.Valid()
    ensures
      var name, t := fx.cstr(Low32(args[0])), old(ks.chosen[..]);
      if name == None || Kboot.FindSlot(t, name.value) == Kboot.MAX_CHOSEN_PARAMS then
        retval == ALL_ONES && ks.chosen[..] == t
      else
        retval == Kboot.FindSlot(t, name.value) as bv64 && ks.chosen[..] == Kboot.Chosen(t, name.value, fx.cstr(Low32(args[1])))
  {
    var r := ks.SetChosen(fx.cstr(Low32(args[0])), fx.cstr(Low32(args[1])));
    retval := if r < 0 then ALL_ONES else r as bv64;
  }

  /** P_KBOOT_SET_INITRD: move args[1] bytes from args[0] to a block carved off the top of memory. */
  method SetInitrdCmd(m: Monitor, ba: Boot.BootArgs, ks: Kboot.KbootState, args: Args)
    requires ba.Valid() && ks.Valid()
    requires Low32(args[0]) + Low32(args[1]) <= |m.mem|
    requires Boot.BlockAddress(ba.physBase, ba.memSize, Low32(args[1]), ba.guardPlaced) + Low32(args[1]) <= |m.mem|
    modifies m`mem, ba`memSize, ba`guardPlaced, ks`initrdStart, ks`initrdSize
    ensures ba.Valid() && ks.Valid()
    ensures ks.initrdStart == Boot.BlockAddress(ba.physBase, old(ba.memSize), Low32(args[1]), old(ba.guardPlaced))
    ensures ks.initrdSize == Low32(args[1])
    ensures m.mem == Move(old(m.mem), ks.initrdStart, Low32(args[0]), Low32(args[1]))
  {
    ks.SetInitrd(ba, m, Low32(args[0]), Low32(args[1]));
  }

  /**
   * The kernel-staging arms of the switch; each command's own method states
   * its outcome, and this one what the dispatcher relies on.
   */
  method StagingCmd(m: Monitor, ba: Boot.BootArgs, ks: Kboot.KbootState, fx: Foreign, s: StagingOp, args: Args)
    returns (retval: bv64)
    requires ba.Valid() && ks.Valid()
    requires s.KbootSetInitrd? ==>
      Low32(args[0]) + Low32(args[1]) <= |m.mem| &&
      Boot.BlockAddress(ba.physBase, ba.memSize, Low32(args[1]), ba.guardPlaced) + Low32(args[1]) <= |m.mem|
    modifies m`mem, ba`memSize, ba`guardPlaced, ks`entry, ks`stageArgs, ks`restoreLogo, ks`initrdStart, ks`initrdSize, ks.chosen
    ensures ba.Valid() && ks.Valid()
    ensures !s.KbootSetInitrd? ==> m.mem == old(m.mem)
    ensures s.KbootBoot? ==>
      ks.entry == Low32(args[0]) && ks.stageArgs == [0, 0xffff_ffff, ks.dt, 0] && !ks.restoreLogo && retval == 0
    ensures !s.KbootBoot? ==> ks.entry == old(ks.entry) && ks.stageArgs == old(ks.stageArgs) && ks.restoreLogo == old(ks.restoreLogo)
    ensures s.KbootGetDt? ==> retval == DtPointer(ks.dt)
  {
    if s.TopOfMemoryAlloc? {
      retval := TopAllocCmd(ba, args);
    } else if s.KbootBoot? {
      // kboot_boot returns 0, so the fall-through into P_KBOOT_SET_CHOSEN is never taken
      var r := ks.Boot(Low32(args[0]));
      retval := 0;
    } else if s.KbootSetChosen? {
      retval := SetChosenCmd(ks, fx, args);
    } else if s.KbootSetInitrd? {
      SetInitrdCmd(m, ba, ks, args);
      retval := 0;
    } else {
      retval := DtPointer(ks.dt);
    }
  }

  // ---------------------------------------------------------------------------
  // The dispatcher

  /**
   * The arms of the switch that work on the monitor's guard and fault
   * count alone: every command except the memory, MMU and kernel-staging
   * ones. The guard in force on
   * entry is saved and put back on the normal return path; P_SET_EXC_GUARD
   * replaces the saved value with args[0] and zeroes exc_count. P_SLEEP and
   * P_EL3_CALL are answered with S_BADCMD alone (RejectedAsWritten is the
   * code as written).
   */
  method MonitorCmd(m: Monitor, fx: Foreign, req: Request) returns (reply: Reply, ret: int)
    requires !m.rebooted && !req.op.Access? && !req.op.Paging? && !req.op.Staging?
    modifies m
    ensures reply.op == req.op
    ensures reply.status == if Rejected(req.op) then S_BADCMD else S_OK
    ensures ret == if req.op == Exit then ExitCode(req.args[0]) else 0
    ensures m.rebooted <==> req.op == Reboot
    ensures !m.rebooted ==> m.guard == if req.op == SetExcGuard then Lo(req.args[0]) else old(m.guard)
    ensures m.touches == old(m.touches) && m.mem == old(m.mem)
    ensures req.op == SetExcGuard ==> m.excCount == 0
    ensures req.op == GetExcCount ==> reply.retval == Word(old(m.excCount)) && m.excCount == 0
    ensures req.op != SetExcGuard && req.op != GetExcCount ==> m.excCount == old(m.excCount)
    ensures Rejected(req.op) || req.op.Untracked? || req.op == Nop || req.op == SetExcGuard ==> reply.retval == 0
    ensures req.op.Valued? ==> reply.retval == fx.answer(req.op, req.args)
    ensures req.op == XzDec ==> reply.retval == XzRetval(fx.xz(req.args))
    ensures req.op == GzDec ==> reply.retval == GzRetval(fx.gz(req.args).0, fx.gz(req.args).1)
  {
    var guardSave := m.guard;
    var args := req.args;
    reply := Reply(req.op, S_OK, 0);
    ret := 0;
    match req.op {
      case Nop =>
      case Exit =>
        ret := ExitCode(args[0]);
        return;
      case SetExcGuard =>
        m.excCount := 0;
        guardSave := Lo(args[0]);
      case GetExcCount =>
        reply := reply.(retval := Word(m.excCount));
        m.excCount := 0;
      case Reboot =>
        m.rebooted := true;
        return;
      case Sleep | El3Call | Unsupported(_) =>
        reply := reply.(status := S_BADCMD);
      case XzDec =>
        reply := reply.(retval := XzRetval(fx.xz(args)));
      case GzDec =>
        var (status, len) := fx.gz(args);
        reply := reply.(retval := GzRetval(status, len));
      case Valued(_) =>
        reply := reply.(retval := fx.answer(req.op, args));
      case Untracked(_) =>
    }
    m.guard := guardSave;
  }

  /**
   * The arms of proxy_process that work on the monitor alone: the memory
   * commands and those on the guard and the fault count.
   */
  method HostCmd(m: Monitor, fx: Foreign, req: Request) returns (reply: Reply, ret: int)
    requires !m.rebooted && !req.op.Paging? && !req.op.Staging?
    modifies m
    ensures reply.op == req.op
    ensures reply.status == if Rejected(req.op) then S_BADCMD else S_OK
    ensures ret == if req.op == Exit then ExitCode(req.args[0]) else 0
    ensures m.rebooted <==> req.op == Reboot
    ensures !m.rebooted ==> m.guard == if req.op == SetExcGuard then Lo(req.args[0]) else old(m.guard)
    ensures !req.op.Access? ==> m.touches == old(m.touches) && m.mem == old(m.mem)
    ensures req.op.Access? ==>
      old(m.touches) <= m.touches && Guarded(m.touches, |old(m.touches)|, Risk(req.op).value) &&
      AccessOutcome(req.op.k, req.op.w, req.args, old(m.mem), old(m.excCount), m.mem, m.excCount, reply.retval)
    ensures req.op == SetExcGuard ==> m.excCount == 0
    ensures req.op == GetExcCount ==> reply.retval == Word(old(m.excCount)) && m.excCount == 0
    ensures req.op != SetExcGuard && req.op != GetExcCount && !req.op.Access? ==> m.excCount == old(m.excCount)
    ensures Rejected(req.op) || req.op.Untracked? || req.op == Nop || req.op == SetExcGuard ==> reply.retval == 0
    ensures req.op.Valued? ==> reply.retval == fx.answer(req.op, req.args)
    ensures req.op == XzDec ==> reply.retval == XzRetval(fx.xz(req.args))
    ensures req.op == GzDec ==> reply.retval == GzRetval(fx.gz(req.args).0, fx.gz(req.args).1)
  {
    if req.op.Access? {
      var r := AccessCmd(m, req.op, req.args);
      reply, ret := Reply(req.op, S_OK, r), 0;
    } else {
      reply, ret := MonitorCmd(m, fx, req);
    }
  }

  /**
   * Every arm of proxy_process except the MMU ones: the memory commands,
   * the kernel-staging commands and those that work on the guard and the
   * fault count alone. None of them touches the CP15 registers or the
   * section table.
   */
  method CoreCmd(m: Monitor, ba: Boot.BootArgs, ks: Kboot.KbootState, fx: Foreign, req: Request)
    returns (reply: Reply, ret: int)
    requires !m.rebooted && ba.Valid() && ks.Valid() && !req.op.Paging?
    requires req.op == Staging(KbootSetInitrd) ==>
      Low32(req.args[0]) + Low32(req.args[1]) <= |m.mem| &&
      Boot.BlockAddress(ba.physBase, ba.memSize, Low32(req.args[1]), ba.guardPlaced) + Low32(req.args[1]) <= |m.mem|
    modifies m, ba`memSize, ba`guardPlaced, ks`entry, ks`stageArgs, ks`restoreLogo, ks`initrdStart, ks`initrdSize, ks.chosen
    ensures ba.Valid() && ks.Valid()
    ensures reply.op == req.op
    ensures reply.status == if Rejected(req.op) then S_BADCMD else S_OK
    ensures ret == if req.op == Exit then ExitCode(req.args[0]) else if req.op == Staging(KbootBoot) then 1 else 0
    ensures m.rebooted <==> req.op == Reboot
    ensures !m.rebooted ==> m.guard == if req.op == SetExcGuard then Lo(req.args[0]) else old(m.guard)
    // the risk-class guard is in force at every memory access
    ensures !req.op.Access? ==> m.touches == old(m.touches)
    ensures req.op.Access? ==>
      old(m.touches) <= m.touches && Guarded(m.touches, |old(m.touches)|, Risk(req.op).value) &&
      AccessOutcome(req.op.k, req.op.w, req.args, old(m.mem), old(m.excCount), m.mem, m.excCount, reply.retval)
    // the fault counter
    ensures req.op == SetExcGuard ==> m.excCount == 0
    ensures req.op == GetExcCount ==> reply.retval == Word(old(m.excCount)) && m.excCount == 0
    ensures req.op != SetExcGuard && req.op != GetExcCount && !req.op.Access? ==> m.excCount == old(m.excCount)
    ensures req.op != Staging(KbootSetInitrd) && !req.op.Access? ==> m.mem == old(m.mem)
    // commands that are refused, or whose effect lies outside the model, change nothing
    ensures Rejected(req.op) || req.op.Untracked? || req.op == Nop || req.op == SetExcGuard ==> reply.retval == 0
    ensures !req.op.Staging? ==>
      ba.memSize == old(ba.memSize) && ba.guardPlaced == old(ba.guardPlaced) &&
      ks.entry == old(ks.entry) && ks.stageArgs == old(ks.stageArgs) && ks.restoreLogo == old(ks.restoreLogo) &&
      ks.initrdStart == old(ks.initrdStart) && ks.initrdSize == old(ks.initrdSize) && ks.chosen[..] == old(ks.chosen[..])
    // results of calls outside the model
    ensures req.op.Valued? ==> reply.retval == fx.answer(req.op, req.args)
    ensures req.op == XzDec ==> reply.retval == XzRetval(fx.xz(req.args))
    ensures req.op == GzDec ==> reply.retval == GzRetval(fx.gz(req.args).0, fx.gz(req.args).1)
    // the kernel-staging commands whose result is not a call's
    ensures req.op == Staging(KbootBoot) ==>
      ks.entry == Low32(req.args[0]) && ks.stageArgs == [0, 0xffff_ffff, ks.dt, 0] && !ks.restoreLogo
    ensures req.op == Staging(KbootGetDt) ==> reply.retval == DtPointer(old(ks.dt))
  {
    if req.op.Staging? {
      var r := StagingCmd(m, ba, ks, fx, req.op.s, req.args);
      reply, ret := Reply(req.op, S_OK, r), if req.op.s.KbootBoot? then 1 else 0;
    } else {
      reply, ret := HostCmd(m, fx, req);
    }
  }

  /**
   * proxy_process: one request becomes one reply that echoes the opcode.
   * The MMU and kernel-staging commands leave the monitor's guard, count
   * and access log alone; P_KBOOT_BOOT returns 1 without putting a reply
   * together.
   */
  method Process(m: Monitor, cpu: Regs, pt: Mmu.PageTables, ba: Boot.BootArgs, ks: Kboot.KbootState, fx: Foreign, req: Request)
    returns (reply: Reply, ret: int)
    requires !m.rebooted && pt.Valid() && ba.Valid() && ks.Valid()
    requires req.op == Paging(MmuInit) && fx.ranges != None ==> MmuInitOk(fx.ranges.value, ba.physBase, ba.memSize)
    requires req.op == Staging(KbootSetInitrd) ==>
      Low32(req.args[0]) + Low32(req.args[1]) <= |m.mem| &&
      Boot.BlockAddress(ba.physBase, ba.memSize, Low32(req.args[1]), ba.guardPlaced) + Low32(req.args[1]) <= |m.mem|
    modifies m, cpu`sctlr, cpu`sctlrWrites, cpu`cacheCleans, cpu`dacr, cpu`ttbr0, cpu`ttbcr, pt.entries, pt`cleaned
    modifies ba`memSize, ba`guardPlaced, ks`entry, ks`stageArgs, ks`restoreLogo, ks`initrdStart, ks`initrdSize, ks.chosen
    ensures pt.Valid() && ba.Valid() && ks.Valid()
    ensures reply.op == req.op
    ensures reply.status == if Rejected(req.op) then S_BADCMD else S_OK
    ensures ret == if req.op == Exit then ExitCode(req.args[0]) else if req.op == Staging(KbootBoot) then 1 else 0
    ensures m.rebooted <==> req.op == Reboot
    ensures !m.rebooted ==> m.guard == if req.op == SetExcGuard then Lo(req.args[0]) else old(m.guard)
    // the risk-class guard is in force at every memory access
    ensures !req.op.Access? ==> m.touches == old(m.touches)
    ensures req.op.Access? ==>
      old(m.touches) <= m.touches && Guarded(m.touches, |old(m.touches)|, Risk(req.op).value) &&
      AccessOutcome(req.op.k, req.op.w, req.args, old(m.mem), old(m.excCount), m.mem, m.excCount, reply.retval)
    // the fault counter
    ensures req.op == SetExcGuard ==> m.excCount == 0
    ensures req.op == GetExcCount ==> reply.retval == Word(old(m.excCount)) && m.excCount == 0
    ensures req.op != SetExcGuard && req.op != GetExcCount && !req.op.Access? ==> m.excCount == old(m.excCount)
    ensures req.op != Staging(KbootSetInitrd) && !req.op.Access? ==> m.mem == old(m.mem)
    // commands that are refused, or whose effect lies outside the model, change nothing
    ensures Rejected(req.op) || req.op.Untracked? || req.op == Nop || req.op == SetExcGuard ==> reply.retval == 0
    ensures !req.op.Staging? ==>
      ba.memSize == old(ba.memSize) && ba.guardPlaced == old(ba.guardPlaced) &&
      ks.entry == old(ks.entry) && ks.stageArgs == old(ks.stageArgs) && ks.restoreLogo == old(ks.restoreLogo) &&
      ks.initrdStart == old(ks.initrdStart) && ks.initrdSize == old(ks.initrdSize) && ks.chosen[..] == old(ks.chosen[..])
    // results of calls outside the model
    ensures req.op.Valued? ==> reply.retval == fx.answer(req.op, req.args)
    ensures req.op == XzDec ==> reply.retval == XzRetval(fx.xz(req.args))
    ensures req.op == GzDec ==> reply.retval == GzRetval(fx.gz(req.args).0, fx.gz(req.args).1)
    // the kernel-staging commands whose result is not a call's
    ensures req.op == Staging(KbootBoot) ==>
      ks.entry == Low32(req.args[0]) && ks.stageArgs == [0, 0xffff_ffff, ks.dt, 0] && !ks.restoreLogo
    ensures req.op == Staging(KbootGetDt) ==> reply.retval == DtPointer(old(ks.dt))
    // the MMU commands
    ensures !req.op.Paging? ==> cpu.sctlr == old(cpu.sctlr) && cpu.cacheCleans == old(cpu.cacheCleans)
    ensures req.op != Paging(MmuInit) ==>
      pt.entries[..] == old(pt.entries[..]) && pt.cleaned == old(pt.cleaned) &&
      cpu.dacr == old(cpu.dacr) && cpu.ttbr0 == old(cpu.ttbr0) && cpu.ttbcr == old(cpu.ttbcr)
    // mmu_init: without the ranges property nothing changes; otherwise the table is built and translation is on
    ensures req.op == Paging(MmuInit) && fx.ranges == None ==>
      pt.entries[..] == old(pt.entries[..]) && pt.cleaned == old(pt.cleaned) &&
      cpu.sctlr == old(cpu.sctlr) && cpu.sctlrWrites == old(cpu.sctlrWrites) &&
      cpu.dacr == old(cpu.dacr) && cpu.ttbr0 == old(cpu.ttbr0) && cpu.ttbcr == old(cpu.ttbcr)
    ensures req.op == Paging(MmuInit) && fx.ranges != None ==>
      pt.entries[..] == InitTable(fx.ranges.value, ba.physBase, old(ba.memSize)) &&
      cpu.dacr == 0x5555_5555 && cpu.ttbr0 == fx.pgtables as bv32 && cpu.ttbcr == 0 &&
      |pt.cleaned| == (if fx.pgtables >= 0xffff_c000 then 0 else 256) && cpu.sctlr == Mmu.InitSctlr(old(cpu.sctlr)) && cpu.sctlrWrites == old(cpu.sctlrWrites) + [cpu.sctlr]
  {
    if req.op == Paging(MmuInit) {
      MmuInitCmd(cpu, pt, ba, fx);
      reply, ret := Reply(req.op, S_OK, 0), 0;
    } else if req.op.Paging? {
      var r := PagingCmd(cpu, req.op.p, req.args);
      reply, ret := Reply(req.op, S_OK, r), 0;
    } else {
      reply, ret := CoreCmd(m, ba, ks, fx, req);
    }
  }

  // ---------------------------------------------------------------------------
  // P_SLEEP and P_EL3_CALL as written

  /**
   * The P_SLEEP and P_EL3_CALL labels as written: the reply says S_BADCMD,
   * but with no `break` the P_WRITE64 case runs as well, so args[1] is
   * stored at args[0] under GUARD_SKIP.
   */
  method RejectedAsWritten(m: Monitor, req: Request) returns (reply: Reply)
    requires !m.rebooted && (req.op == Sleep || req.op == El3Call)
    modifies m
    ensures reply == Reply(req.op, S_BADCMD, 0)
    ensures m.guard == old(m.guard) && !m.rebooted
    ensures old(m.touches) <= m.touches && Guarded(m.touches, |old(m.touches)|, GUARD_SKIP)
    ensures AccessOutcome(WriteOp, W64, req.args, old(m.mem), old(m.excCount), m.mem, m.excCount, 0)
  {
    var guardSave := m.guard;
    reply := Reply(req.op, S_BADCMD, 0);
    var r := StoreCmd(m, W64, req.args);
    m.guard := guardSave;
  }

  /**
   * The store a refused P_SLEEP performs as written is visible: a mapped
   * unit that does not already hold args[1] is overwritten, whereas
   * Process leaves memory as it was.
   */
  lemma RejectedStoreVisible(mem: Memory, a: nat, v: bv64)
    requires Mapped(mem, a, W64) && ReadUnit(mem, a, W64) != v
    ensures WriteUnit(mem, a, W64, v) != mem
  {
    ReadAfterWrite(mem, a, W64, v);
    TruncFits(W64, v);
  }
}
