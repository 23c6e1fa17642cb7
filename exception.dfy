/**
 * Exception bookkeeping: the fault-guard encoding and the name tables of
 * exception.h, the faulting-PC adjustment and reboot decision of
 * exc_handler, and the SCTLR/CPSR updates of exception_initialize and
 * exception_shutdown.
 */
module Exception {
  import opened Bits
  import opened Cpu
  import opened Wrappers

  // Exception type codes
  const EXC_TYPE_UNDEFINED: int := 0
  const EXC_TYPE_SVC: int := 1
  const EXC_TYPE_INSTRUCTION_ABORT: int := 2
  const EXC_TYPE_DATA_ABORT: int := 3
  const EXC_TYPE_IRQ: int := 4
  const EXC_TYPE_FIQ: int := 5

  // enum exc_guard_t
  const GUARD_OFF: bv32 := 0
  const GUARD_SKIP: bv32 := 1
  const GUARD_MARK: bv32 := 2
  const GUARD_RETURN: bv32 := 3
  const GUARD_TYPE_MASK: bv32 := 0xff
  const GUARD_SILENT: bv32 := 0x100

  /** The four guard types are distinct values inside GUARD_TYPE_MASK, and SILENT lies outside it. */
  lemma GuardEncoding(g: bv32)
    ensures GUARD_OFF < GUARD_SKIP < GUARD_MARK < GUARD_RETURN <= GUARD_TYPE_MASK
    ensures GUARD_SILENT & GUARD_TYPE_MASK == 0
    ensures (g | GUARD_SILENT) & GUARD_TYPE_MASK == g & GUARD_TYPE_MASK
  {
  }

  /**
   * What a faulting memory access turns into under a guard. The trap-frame
   * code that consumes the guard is not part of this model; the outcomes are
   * stated abstractly: a dropped store (SKIP), an all-ones load (MARK), a bulk
   * operation that stops early (RETURN), and otherwise a fatal fault.
   */
  datatype Recovery = Fatal | Skip | Mark | Return

  function RecoveryFor(guard: bv32): (r: Recovery)
    ensures r == Skip <==> guard & GUARD_TYPE_MASK == GUARD_SKIP
    ensures r == Mark <==> guard & GUARD_TYPE_MASK == GUARD_MARK
    ensures r == Return <==> guard & GUARD_TYPE_MASK == GUARD_RETURN
  {
    var t := guard & GUARD_TYPE_MASK;
    if t == GUARD_SKIP then Skip
    else if t == GUARD_MARK then Mark
    else if t == GUARD_RETURN then Return
    else Fatal
  }

  /** GUARD_SILENT does not change how a fault is recovered. */
  lemma SilentKeepsRecovery(g: bv32)
    ensures RecoveryFor(g | GUARD_SILENT) == RecoveryFor(g)
    ensures RecoveryFor(GUARD_OFF) == Fatal
  {
    GuardEncoding(g);
  }

  /** exc_table: the name of each exception type; indices outside 0..5 have none. */
  function ExcName(excType: int): (n: Option<string>)
    ensures n.Some? <==> EXC_TYPE_UNDEFINED <= excType <= EXC_TYPE_FIQ
  {
    if excType == EXC_TYPE_UNDEFINED then Some("Undefined")
    else if excType == EXC_TYPE_SVC then Some("Supervisor Call")
    else if excType == EXC_TYPE_INSTRUCTION_ABORT then Some("Instruction Abort")
    else if excType == EXC_TYPE_DATA_ABORT then Some("Data Abort")
    else if excType == EXC_TYPE_IRQ then Some("IRQ")
    else if excType == EXC_TYPE_FIQ then Some("FIQ")
    else None
  }

  /** The processor-mode encodings that m_table names. */
  predicate NamedMode(m: bv32)
  {
    m == 0x10 || m == 0x11 || m == 0x12 || m == 0x13 || m == 0x16 ||
    m == 0x17 || m == 0x1a || m == 0x1b || m == 0x1f
  }

  /**
   * m_table[spsr & 0x1f]: the mode name printed for a saved PSR. The index
   * is always inside the 32-entry table; only the nine defined modes have a
   * name.
   */
  function ModeName(spsr: bv32): (n: Option<string>)
    ensures spsr & 0x1f < 0x20
    ensures n.Some? <==> NamedMode(spsr & 0x1f)
    ensures n.Some? ==> n.value != []
  {
    var m := spsr & 0x1f;
    if m == 0x10 then Some("User")
    else if m == 0x11 then Some("FIQ")
    else if m == 0x12 then Some("IRQ")
    else if m == 0x13 then Some("Supervisor")
    else if m == 0x16 then Some("Monitor")
    else if m == 0x17 then Some("Abort")
    else if m == 0x1a then Some("Hyp")
    else if m == 0x1b then Some("Undefined")
    else if m == 0x1f then Some("System")
    else None
  }

  /** What exc_handler reports and decides for one exception. */
  datatype HandlerReport = HandlerReport(
    name: Option<string>,  // exc_table[type]
    pc: bv32,              // the faulting instruction's address
    mode: Option<string>,  // m_table[spsr & 0x1f]
    reboots: bool)         // ends in flush_and_reboot

  /**
   * exc_handler. It takes no guard: the classification depends only on the
   * saved registers, the SPSR and the type, never on the fault-guard cell,
   * and the saved registers are not written.
   */
  function ExcHandler(regs: seq<bv32>, spsr: bv32, excType: int): (h: HandlerReport)
    requires |regs| == 16
    ensures EXC_TYPE_UNDEFINED <= excType <= EXC_TYPE_DATA_ABORT ==> h.pc + 4 == regs[15]
    ensures excType == EXC_TYPE_IRQ || excType == EXC_TYPE_FIQ ==> h.pc + 8 == regs[15]
    ensures !(EXC_TYPE_UNDEFINED <= excType <= EXC_TYPE_FIQ) ==> h.pc == regs[15]
    ensures h.reboots <==>
      excType == EXC_TYPE_UNDEFINED || excType == EXC_TYPE_INSTRUCTION_ABORT || excType == EXC_TYPE_DATA_ABORT
    ensures h.name.Some? <==> EXC_TYPE_UNDEFINED <= excType <= EXC_TYPE_FIQ
    ensures h.mode.Some? <==> NamedMode(spsr & 0x1f)
  {
    var pc :=
      if EXC_TYPE_UNDEFINED <= excType <= EXC_TYPE_DATA_ABORT then regs[15] - 4
      else if excType == EXC_TYPE_IRQ || excType == EXC_TYPE_FIQ then regs[15] - 8
      else regs[15];
    var fatal := excType == EXC_TYPE_UNDEFINED || excType == EXC_TYPE_INSTRUCTION_ABORT
                 || excType == EXC_TYPE_DATA_ABORT;
    HandlerReport(ExcName(excType), pc, ModeName(spsr), fatal)
  }

  /** The SCTLR bits exception_initialize clears: V (high vectors) and VE (vectored interrupts). */
  const VECTOR_BITS: bv32 := SCTLR_V | SCTLR_VE
  /** The CPSR bits that mask asynchronous aborts, IRQs and FIQs. */
  const ASYNC_MASKS: bv32 := CPSR_A | CPSR_I | CPSR_F

  /** VECTOR_BITS has bits 13 and 24 only. */
  lemma VectorBits()
    ensures forall i :: BitSet(VECTOR_BITS, i) <==> i == 13 || i == 24
  {
    forall i
      ensures BitSet(VECTOR_BITS, i) <==> i == 13 || i == 24
    {
    }
  }

  /** ASYNC_MASKS has bits 6 to 8 only. */
  lemma MaskBits()
    ensures forall i :: BitSet(ASYNC_MASKS, i) <==> 6 <= i <= 8
  {
    forall i
      ensures BitSet(ASYNC_MASKS, i) <==> 6 <= i <= 8
    {
    }
  }

  /** The SCTLR value exception_initialize writes: V and VE cleared, every other bit kept. */
  function InitializedSctlr(s: bv32): (r: bv32)
    ensures forall i :: BitSet(r, i) <==> BitSet(s, i) && i != 13 && i != 24
  {
    ClearBits(s, VECTOR_BITS);
    VectorBits();
    s & !VECTOR_BITS
  }

  /** The CPSR after exception_initialize: A, I and F cleared (exceptions unmasked), every other bit kept. */
  function UnmaskedCpsr(c: bv32): (r: bv32)
    ensures forall i :: BitSet(r, i) <==> BitSet(c, i) && !(6 <= i <= 8)
  {
    ClearBits(c, ASYNC_MASKS);
    MaskBits();
    c & !ASYNC_MASKS
  }

  /** The CPSR after exception_shutdown: A, I and F set (exceptions masked), every other bit kept. */
  function MaskedCpsr(c: bv32): (r: bv32)
    ensures forall i :: BitSet(r, i) <==> BitSet(c, i) || 6 <= i <= 8
  {
    SetBits(c, ASYNC_MASKS);
    MaskBits();
    c | (ASYNC_MASKS)
  }

  /** Shutdown after initialize gives back a CPSR that had all three masks set. */
  lemma ShutdownUndoesInitialize(c: bv32)
    requires c & (ASYNC_MASKS) == ASYNC_MASKS
    ensures MaskedCpsr(UnmaskedCpsr(c)) == c
  {
  }

  /** exception_initialize: install the vector base, then update SCTLR and CPSR. */
  method Initialize(cpu: Regs, vectors: bv32)
    modifies cpu`vbar, cpu`sctlr, cpu`sctlrWrites, cpu`cpsr
    ensures cpu.vbar == vectors
    ensures cpu.sctlr == InitializedSctlr(old(cpu.sctlr))
    ensures cpu.sctlrWrites == old(cpu.sctlrWrites) + [cpu.sctlr]
    ensures cpu.cpsr == UnmaskedCpsr(old(cpu.cpsr))
  {
    cpu.vbar := vectors;
    var sctlr := cpu.sctlr;
    cpu.WriteSctlr(sctlr & !VECTOR_BITS);
    cpu.cpsr := cpu.cpsr & !ASYNC_MASKS;
  }

  /** exception_shutdown: mask asynchronous aborts, IRQs and FIQs. */
  method Shutdown(cpu: Regs)
    modifies cpu`cpsr
    ensures cpu.cpsr == MaskedCpsr(old(cpu.cpsr))
  {
    cpu.cpsr := cpu.cpsr | (ASYNC_MASKS);
  }
}
