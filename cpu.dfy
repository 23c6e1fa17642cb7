/**
 * The CP15 system registers and the CPSR that the monitor reads and writes,
 * as plain cells. Only the bit positions the core uses are named
 * (arm_cpu_regs.h); every write to SCTLR is also logged so that a caller
 * can state that a path wrote nothing.
 */
module Cpu {

  // SCTLR bits
  const SCTLR_M: bv32 := 0x1          // BIT(0), MMU enable
  const SCTLR_A: bv32 := 0x2          // BIT(1), alignment check
  const SCTLR_C: bv32 := 0x4          // BIT(2), data cache
  const SCTLR_Z: bv32 := 0x800        // BIT(11), branch prediction
  const SCTLR_I: bv32 := 0x1000       // BIT(12), instruction cache
  const SCTLR_V: bv32 := 0x2000       // BIT(13), high vectors
  const SCTLR_VE: bv32 := 0x100_0000  // BIT(24), vectored interrupts

  // CPSR mask bits
  const CPSR_A: bv32 := 0x100         // BIT(8), asynchronous abort mask
  const CPSR_I: bv32 := 0x80          // BIT(7), IRQ mask
  const CPSR_F: bv32 := 0x40          // BIT(6), FIQ mask

  class Regs {
    var sctlr: bv32
    var cpsr: bv32
    var vbar: bv32
    var dacr: bv32
    var ttbr0: bv32
    var ttbcr: bv32
    /** Every value written to SCTLR, oldest first. */
    var sctlrWrites: seq<bv32>
    /** Number of whole-cache clean-and-invalidate-by-set/way passes (dcsw_op_all). */
    var cacheCleans: nat

    constructor (sctlr0: bv32, cpsr0: bv32)
      ensures sctlr == sctlr0 && cpsr == cpsr0
      ensures vbar == 0 && dacr == 0 && ttbr0 == 0 && ttbcr == 0
      ensures sctlrWrites == [] && cacheCleans == 0
    {
      sctlr, cpsr := sctlr0, cpsr0;
      vbar, dacr, ttbr0, ttbcr := 0, 0, 0, 0;
      sctlrWrites, cacheCleans := [], 0;
    }

    /** write_sctlr */
    method WriteSctlr(v: bv32)
      modifies this`sctlr, this`sctlrWrites
      ensures sctlr == v && sctlrWrites == old(sctlrWrites) + [v]
    {
      sctlr := v;
      sctlrWrites := sctlrWrites + [v];
    }

    /** dcsw_op_all(DCSW_OP_DCCISW) */
    method CleanAllCaches()
      modifies this`cacheCleans
      ensures cacheCleans == old(cacheCleans) + 1
    {
      cacheCleans := cacheCleans + 1;
    }
  }
}
