# mini-haywire monitor core, modelled in Dafny

mini-haywire is a small ARMv7 boot-loader monitor. A host sends it requests
over a serial link. Each request is an opcode and five 64-bit argument
words, and `proxy_process` answers each one with one reply. Commands that
touch memory run under a transient *fault guard* chosen by the command's
risk class:

- `GUARD_SKIP`: a faulting store is dropped.
- `GUARD_MARK`: a faulting load yields all ones.
- `GUARD_RETURN`: a bulk copy or fill stops at the faulting unit.

Each of these faults is counted in `exc_count`. The guard in force on entry
is put back before the reply goes out. `P_SET_EXC_GUARD` replaces that saved
value and zeroes the count.

The model covers the dispatcher and the code it relies on. Each module
below is one part of the source.

- **`Proxy`** (proxy.dfy): `proxy_process`.
  - Opcodes are a datatype grouped by what their arm of the switch does.
  - Each memory command is a method that installs its guard, performs the
    access through the `Machine.Monitor` primitives and states the
    resulting memory, fault count and retval.
  - `Process` is the whole switch. It proves the reply shape, the return
    value, the guard restoration, the counter rules and the guard in force
    at every access.
- **`Machine`** (machine.dfy): a class holding `exc_guard`, `exc_count`, a
  byte-addressed memory and a log of every access with the guard in force
  when it ran.
  - On this class sit `readN`/`writeN`/`setN`/`clearN`/`maskN`/`writereadN`
    of utils.h and the `memsetN`/`memcpyN` loops of utils.c, as methods
    proved against reference functions.
  - `poll32`/`poll64` are loops over a sampling function.
- **`Mem`** (mem.dfy): the memory values.
  - Little-endian units of 8 to 64 bits, with their encode/decode round
    trips.
  - The read-modify-write values and their algebra.
  - The reference definitions of a fill, a copy and a byte move.
- **`Exception`** (exception.dfy): the guard encoding, the `exc_table` and
  `m_table` names, `exc_handler`'s faulting-PC and reboot decision, and the
  SCTLR/CPSR updates of `exception_initialize`/`exception_shutdown`.
- **`Cpu`** (cpu.dfy): the CP15 registers and the CPSR, as plain cells.
- **`Mmu`** (mmu.dfy): memory.c and memory.h.
  - The ARMv7-A short-descriptor section table (section B3.5.1 of the ARM
    Architecture Reference Manual ARMv7-A/R).
  - `mmu_add_ap`, `mmu_add_mapping`, `mmu_init`, and the cache range loop.
  - `mmu_shutdown`, `mmu_disable`, `mmu_restore` and `mmu_active`.
- **`Bits`** (bits.dfy): the types.h bit-field macros, `STACK_ALIGN`, and
  `ALIGN_UP`/`ALIGN_DOWN`.
- **`Boot`** (boot.dfy): early boot.
  - `cur_boot_args` and the downward bump allocator `top_of_memory_alloc`,
    which keeps a guard page.
  - The tick conversions.
  - `mini_start`'s memory-size and device-tree address arithmetic.
  - The `R_ARM_RELATIVE` relocator `apply_rela` (relocation code 23 of
    *ELF for the Arm Architecture*).
- **`Kboot`** (kboot.dfy): the kernel-staging state.
  - The 16-slot `/chosen` parameter table.
  - The 16 KiB log ring buffer.
  - The `next_stage` vector and the initrd block.
- **`Clkrstgen`** (clkrstgen.dfy): the clock/reset generator's device
  table, the five power-state registers, and the operations that toggle a
  device by name or by the ids of a `clock-gates` list.
- **`Firmware`** (firmware.dfy): iBoot version parsing, the half-open
  version range test, and recognition of the firmware-version string.

The model follows the C code. Three points about the code are easy to
miss:

- set/clear/mask run under `GUARD_MARK`, like the reads, not under the
  `GUARD_SKIP` of the single-unit writes (`Proxy.Risk`).
- `exc_handler` never reads the guard. It reboots on undefined-instruction,
  prefetch-abort and data-abort traps and returns on the others, so
  `Exception.ExcHandler` has no guard parameter. The recovery a guard
  grants lives in trap-frame code that is not part of this model, and is
  stated abstractly by `Exception.RecoveryFor`.
- `P_GZDEC` returns the tinf status as a 32-bit `size_t`, so a failure
  status of -3 arrives as `0xffff_fffd`, a value an output length could
  also take (`Proxy.GzRetval`).

Arithmetic on C integers is explicit:

- `u32` values wrap modulo 2^32.
- A 64-bit argument word used as a 32-bit address or size keeps its low 32
  bits.
- A C `int` stored in the 64-bit retval is its two's-complement image.

## Model

| member | source | states |
|---|---|---|
| Proxy.Process | src/proxy.c:24-431 | Every reply echoes the opcode. The status is S_BADCMD exactly for the refused commands, and their retval is 0. The return value is args[0] (or 1 when it is 0) for P_EXIT, 1 for P_KBOOT_BOOT, and 0 otherwise. Afterwards the guard is the one on entry, or args[0] after P_SET_EXC_GUARD. The machine reboots only on P_REBOOT. Every memory access of a memory command runs under its risk-class guard, and other commands make no access. P_SET_EXC_GUARD zeroes the count. P_GET_EXC_COUNT returns the old count and zeroes it. No other command but the memory commands changes the count. Memory changes only through a memory command or P_KBOOT_SET_INITRD. SCTLR changes only through the MMU commands, and the section table and translation registers only through P_MMU_INIT, which builds the table from the `ranges` property and turns translation on (nothing changes without the property). The decoder and foreign-call retvals are as stated. P_KBOOT_BOOT records the low 32 bits of args[0] as the entry, stages the arguments (0, ~0, dt, 0) and clears restore_logo. P_KBOOT_GET_DT returns dt as a 32-bit pointer, sign-extended. Staging state changes only through the staging commands. |
| Proxy.MonitorCmd | src/proxy.c:24-87 | For every command other than the memory, MMU and staging ones: the opcode is echoed, with S_BADCMD for refused commands; P_EXIT returns args[0] (or 1); the guard is restored or replaced by P_SET_EXC_GUARD; the count rules hold; no memory access is made; and P_SLEEP/P_EL3_CALL are refused with no store. |
| Proxy.AccessCmd | src/proxy.c:88-222 | A memory command installs its risk-class guard before its first access, keeps it at every access and restores the entry guard. It never reboots. Memory, count and retval are those its kind and width define. |
| Proxy.StoreCmd | src/proxy.c:88-103 | writeN under GUARD_SKIP. A mapped unit receives args[1] cut to the width. A faulting store leaves memory unchanged and counts one fault. The retval is 0. |
| Proxy.LoadCmd | src/proxy.c:105-120 | readN under GUARD_MARK. The retval is the unit's value. A fault yields all ones of the width and counts one. Memory is unchanged. |
| Proxy.SetCmd | src/proxy.c:122-137 | setN under GUARD_MARK. The unit becomes old OR args[1], and that value is returned. On a fault the store is dropped, all ones is returned and two faults are counted. |
| Proxy.ClearCmd | src/proxy.c:139-154 | clearN under GUARD_MARK. The unit becomes old AND NOT args[1], and that value is returned. A fault yields the cleared all-ones value and two faults. |
| Proxy.MaskCmd | src/proxy.c:156-171 | maskN under GUARD_MARK. The unit becomes (old AND NOT args[1]) OR args[2], and that value is returned. A fault yields that update of all ones and two faults. |
| Proxy.WriteReadCmd | src/proxy.c:173-188 | writereadN under GUARD_MARK. args[1] is stored and the value read back is returned, which over mapped memory is args[1] cut to the width. |
| Proxy.CopyCmd | src/proxy.c:190-205 | memcpyN under GUARD_RETURN over args[2] / unit units. The units before the first faulting one are copied, and the fault is counted once. For P_MEMCPY8 the unit is one byte, the intended memcpy8 (see Findings). |
| Proxy.FillCmd | src/proxy.c:207-222 | memsetN under GUARD_RETURN over args[2] / unit units. The units before the first faulting one are filled, and the fault is counted once. |
| Proxy.Risk | src/proxy.c:88-222 | Single-unit writes get GUARD_SKIP. memcpy and memset get GUARD_RETURN. Reads, set, clear, mask and writeread get GUARD_MARK. No other command installs a guard. |
| Proxy.RiskRecovers | src/proxy.c:88-222 | No risk-class guard is fatal: the skip guard drops the store, the mark guard marks the load and the return guard ends the bulk loop. |
| Proxy.ExitCodeTruncates | src/proxy.c:34-37 | The int that P_EXIT returns keeps only the low 32 bits of args[0]: 2^32 comes back as 0 and 0xffff_ffff as -1. |
| Proxy.XzRetval | src/proxy.c:272-281 | The retval is all ones exactly when the XZ decoder fails. Otherwise it is the 32-bit output length. |
| Proxy.GzRetval | src/proxy.c:282-293 | The retval fits 32 bits. It is the output length when the tinf status is 0. Otherwise it is the non-zero status image. |
| Proxy.CacheCmdCanHang | src/proxy.c:230-256 | A range cache command on the host's words 0xffff_ffc0 and 1 takes the top line as its range, which makes the cache loop hang, so no reply is sent. |
| Proxy.MmuInitCmd | src/proxy.c:260-262 | P_MMU_INIT is mmu_init: without the `ranges` property the table, the cleaned lines, SCTLR, DACR, TTBR0 and TTBCR are unchanged; otherwise the table holds the device ranges and then RAM from phys_base, DACR is all-client, TTBR0 is `__pgtables`, TTBCR is 0, the table's 256 lines are cleaned (none for a table in the top 16 KiB below 4 GiB) and SCTLR gets the MMU and cache bits in one write. |
| Proxy.PagingCmd | src/proxy.c:257-268 | P_MMU_SHUTDOWN is mmu_shutdown. P_MMU_DISABLE returns the old SCTLR and leaves translation off. P_MMU_RESTORE writes the low 32 bits of args[0] to SCTLR and returns 0. |
| Proxy.TopAllocCmd | src/proxy.c:319-321 | The retval is the block top_of_memory_alloc carves for args[0] bytes, and mem_size is lowered accordingly. |
| Proxy.SetChosenCmd | src/proxy.c:332-334 | The name and value are the strings at the low 32 bits of args[0] and args[1]. The retval is -1 for a NULL name or a full table, and the table is unchanged. Otherwise it is the slot of the name, and the table is updated with the pair. |
| Proxy.SetInitrdCmd | src/proxy.c:335-337 | The initrd is moved from args[0] to a fresh top-of-memory block of args[1] bytes, whose address and size are recorded. |
| Proxy.StagingCmd | src/proxy.c:319-343 | The staging arms keep the boot-argument and staging invariants. Memory changes only for P_KBOOT_SET_INITRD. P_KBOOT_BOOT records the entry, stages the arguments (0, ~0, dt, 0), clears restore_logo and returns 0; no other staging command changes those. P_KBOOT_GET_DT returns dt as a sign-extended 32-bit pointer. |
| Proxy.CoreCmd | src/proxy.c:24-431 | Every arm but the MMU ones: the same reply, return value, guard, count and memory rules as Process, and the staging state changes only through the staging commands. |
| Proxy.HostCmd | src/proxy.c:24-222 | The memory commands and those on the guard and count alone: reply, return value, guard and count as for Process, and memory changes only through a memory command under its risk-class guard. |
| Proxy.PointerWordLow | src/proxy.c:341-343 | Casting a 32-bit pointer to the 64-bit retval keeps its 32 bits. |
| Proxy.PointerWordHigh | src/proxy.c:341-343 | The cast fills the high half with copies of bit 31: GCC sign-extends a pointer narrower than the integer. |
| Proxy.PointerWordExtends | src/proxy.c:341-343 | 0x1000 arrives unchanged and 0x8000_0000 as 0xffff_ffff_8000_0000. |
| Proxy.RejectedAsWritten | src/proxy.c:85-91 | As written, P_SLEEP/P_EL3_CALL reply S_BADCMD but also perform P_WRITE64's store of args[1] at args[0] under GUARD_SKIP. |
| Proxy.RejectedStoreVisible | src/proxy.c:85-91 | That store changes memory whenever the unit does not already hold args[1]. |
| Machine.Monitor.constructor | src/exception.c:9-10 | At reset the guard is GUARD_OFF, the count is 0 and no access has happened. |
| Machine.Monitor.LoadUnit | src/utils.h:129-167 | A load succeeds exactly on a mapped unit and returns its value. A fault yields all ones under GUARD_MARK and counts one under a recovering guard. Under any other guard it reboots. |
| Machine.Monitor.StoreUnit | src/utils.h:129-167 | A store of a mapped unit writes its little-endian bytes. A fault drops the store and counts, or reboots under a guard that recovers nothing. |
| Machine.Monitor.Read | src/utils.h:129-167 | readN: one logged access. It returns the unit's value, or all ones on a fault under GUARD_MARK. |
| Machine.Monitor.Write | src/utils.h:129-167 | writeN: one logged access that stores the value cut to the width, or changes nothing on a fault. |
| Machine.Monitor.Modify | src/utils.h:174-296 | A read-modify-write makes two accesses to one unit (one if the load reboots). It stores and returns the new value computed from the old one. On a fault memory is unchanged. |
| Machine.Monitor.Set | src/utils.h:174-236 | setN stores and returns old OR bits within the width. On a fault under GUARD_MARK it returns all ones and counts two. |
| Machine.Monitor.Clear | src/utils.h:174-236 | clearN stores and returns old AND NOT bits within the width. |
| Machine.Monitor.Mask | src/utils.h:262-296 | maskN stores and returns (old AND NOT clr) OR set within the width. |
| Machine.Monitor.WriteRead | src/utils.h:238-260 | writereadN over mapped memory stores the value and returns it cut to the width. |
| Machine.Monitor.MemSet | src/utils.c:46-109 | memsetN fills the units before the first unmapped one, in address order. The count grows by one if the loop stopped early. It reboots exactly when it stopped early under a fatal guard. |
| Machine.Monitor.MemCpy | src/utils.c:55-101 | memcpyN copies unit by unit up to the first pair that faults, with the same count and reboot rules. |
| Machine.Monitor.FillStep | src/utils.c:46-109 | One memsetN iteration extends the fill by one unit exactly when that unit is mapped. |
| Machine.Monitor.CopyStep | src/utils.c:55-101 | One memcpyN iteration extends the copy by one unit exactly when both units are mapped. |
| Machine.Monitor.CopyUnit | src/utils.c:55-101 | `buf[i] = source[i]` stores the value the source unit holds, or changes nothing on a fault. |
| Machine.Monitor.Memcpy8AsWritten | src/utils.c:111-118 | memcpy8 as written copies `size` 16-bit units. |
| Machine.Memcpy8Overrun | src/utils.c:111-118 | As written, memcpy8 with size 1 also copies the byte after the source into the byte after the destination. |
| Machine.Memcpy8Intended | src/utils.c:111-118 | A byte-stride copy of `size` bytes changes no byte outside the destination, and copies every source byte when the buffers do not overlap. |
| Machine.SetOnes | src/utils.h:174-236 | setN on an all-ones unit (a faulting load under GUARD_MARK) yields all ones. |
| Machine.SetTwice | src/utils.h:174-236 | setN twice with the same bits leaves memory and the returned value as setN once. |
| Machine.PollBudget | src/utils.h:298-308 | `while (--timeout > 0)` allows timeout - 1 reads, and 2^32 - 1 reads when the timeout is 0. |
| Machine.Poll32 | src/utils.h:298-308 | poll32 returns 0 exactly when one of the reads within the budget matches. The match is the last read, after no earlier match. Otherwise it returns -1 after the whole budget. |
| Machine.Poll64 | src/utils.h:310-320 | As poll32 (0 iff a read within the budget matches, the match is the last read, otherwise -1 after the full budget), and a target of 2^32 or more never matches, because the masked value is held in 32 bits. |
| Mem.Encode | src/utils.h:129-167 | A store of width w writes exactly that width's byte count. |
| Mem.DecodeFits | src/utils.h:129-167 | A load yields a value of its width. |
| Mem.DecodeEncode | src/utils.h:129-167 | Loading what a store wrote gives back the stored value cut to the width. |
| Mem.EncodeDecode | src/utils.h:129-167 | Storing the value just loaded writes back the same bytes. |
| Mem.TruncFits | src/utils.h:129-167 | The C conversion to the unit type yields a value of the width and leaves such a value alone. |
| Mem.ReadUnit | src/utils.h:129-167 | readN of a mapped unit is a value of the width. |
| Mem.WriteUnitFrame | src/utils.h:129-167 | writeN puts the value's bytes in the unit and changes no other byte. |
| Mem.ReadAfterWrite | src/utils.h:129-167 | Over ordinary memory a same-width read after a write returns the written value cut to the width. |
| Mem.WriteBackRead | src/utils.h:129-167 | Writing back the value just read leaves memory unchanged. |
| Mem.SetValue | src/utils.h:174-236 | The stored setN value is of the width and holds every requested bit of the width. |
| Mem.ClearValue | src/utils.h:174-236 | The stored clearN value is of the width, holds no requested bit and adds no bit. |
| Mem.SetIdempotent | src/utils.h:174-236 | Setting the same bits twice is setting them once. |
| Mem.MaskClearsThenSets | src/utils.h:262-296 | maskN's value is clearN by `clr` followed by setN by `set`. |
| Mem.MaskSpecialCases | src/utils.h:262-296 | maskN with nothing to clear is setN, and with nothing to set is clearN. |
| Mem.CopyUnitIsMove | src/utils.c:55-63 | Copying one unit by value moves exactly the source unit's bytes. |
| Mem.FillFrame | src/utils.c:46-109 | memsetN leaves every byte outside its units unchanged, so a tail shorter than a unit is left alone. |
| Mem.FillContents | src/utils.c:46-109 | After memsetN each byte of each unit is the corresponding byte of the value. |
| Mem.FillUnit | src/utils.c:46-109 | After memsetN each unit holds exactly the value's bytes. |
| Mem.FillReadsBack | src/utils.c:46-109 | After memsetN each unit reads back as the value cut to the width. |
| Mem.CopyFrame | src/utils.c:55-101 | memcpyN leaves every byte outside its destination units unchanged. |
| Mem.CopyContents | src/utils.c:55-101 | For buffers that do not overlap, memcpyN makes each destination byte the source byte at the same offset. |
| Mem.CopyLastUnit | src/utils.c:55-101 | For buffers that do not overlap, each byte of the last unit memcpyN copies is the source byte at the same offset. |
| Mem.MappedUnits | src/utils.c:46-109 | The number of leading units that are mapped: the units before it are mapped, and the one at it is not. |
| Mem.CopyableUnits | src/utils.c:55-101 | The number of leading unit pairs with both units mapped, up to the first pair that faults. |
| Exception.GuardEncoding | src/exception.h:17-24 | OFF < SKIP < MARK < RETURN all lie within GUARD_TYPE_MASK. SILENT lies outside it, so masking recovers the type with or without SILENT. |
| Exception.RecoveryFor | src/exception.h:17-24 | SKIP, MARK and RETURN each recover in their own way, decided by the type bits. Any other type is fatal. |
| Exception.SilentKeepsRecovery | src/exception.h:17-24 | GUARD_SILENT does not change the recovery, and GUARD_OFF is fatal. |
| Exception.ExcName | src/exception.h:26-33 | exc_table names exactly the type codes 0 to 5. |
| Exception.ModeName | src/exception.h:35-45 | The index `spsr & 0x1f` is always in the table, and only the nine defined modes have a non-empty name. |
| Exception.ExcHandler | src/exception.c:12-51 | The PC is regs[15] - 4 for types 0-3, regs[15] - 8 for IRQ/FIQ, and regs[15] otherwise. The handler reboots exactly on undefined, instruction abort and data abort. It reads no guard and writes no register. |
| Exception.InitializedSctlr | src/exception.c:57-59 | SCTLR V and VE are cleared and every other bit is kept. |
| Exception.UnmaskedCpsr | src/exception.c:61 | CPSR A, I and F are cleared and every other bit is kept. |
| Exception.MaskedCpsr | src/exception.c:66 | CPSR A, I and F are set and every other bit is kept. |
| Exception.ShutdownUndoesInitialize | src/exception.c:53-67 | From a CPSR with all three masks set, shutdown after initialize restores it. |
| Exception.Initialize | src/exception.c:53-62 | VBAR gets the vector table, SCTLR is written once with V/VE cleared, and the CPSR is unmasked. |
| Exception.Shutdown | src/exception.c:64-67 | The CPSR is masked. |
| Mmu.AttrLayout | src/memory.h:11-21 | The ATTR_* masks are pairwise disjoint and disjoint from AP bits 10, 11 and 15, and the fields are the GENMASKs named. |
| Mmu.ApValuesFit | src/memory.h:23-29 | Every AP_* value is at most 0b111. |
| Mmu.AddApSpec | src/memory.c:29-47 | Bits 10, 11 and 15 follow perms bits 0, 1 and 2, and every other bit is kept. |
| Mmu.DomainZero | src/memory.c:58 | FIELD_PREP(ATTR_DOMAIN, 0) adds no bit. |
| Mmu.SectionAttrKind | src/memory.c:55-58 | The stored attribute word is a section descriptor (bits 1:0 are 0b10) with NS set. |
| Mmu.SectionAttrAp | src/memory.c:55-58 | The stored attribute word carries the AP bits of `perms`. |
| Mmu.SectionAttrKeeps | src/memory.c:55-58 | Every other attribute bit is the caller's, the domain field included. |
| Mmu.AlignedSection | src/memory.c:51-53 | The assertion `x == ALIGN_UP(x, SZ_1M)` holds exactly for multiples of 1 MiB. |
| Mmu.MappingIndices | src/memory.c:49-65 | An accepted mapping's section indices lie inside the 4096-entry table. |
| Mmu.IdentitySections | src/memory.c:60-64 | An identity mapping maps each of its sections to that section's own base, and leaves every other entry as it was. |
| Mmu.UnmappedStaysZero | src/memory.c:81-90 | After the device ranges are mapped, an entry no range covers is still 0. |
| Mmu.RangesMappedLast | src/memory.c:81-90 | The ranges are mapped in order, so a later range overwrites an earlier one. |
| Mmu.PointerU64 | src/memory.c:15 | `(u64)addr` sign-extends the 32-bit pointer and keeps its low 32 bits. |
| Mmu.CacheRange | src/memory.c:12-27 | Over the sign-extended pointer and a u64 end, the ops are at the low 32 bits of addr, addr + 64, …: ceil(length / 64) of them, none for length 0, and none at all when the range starts in the upper half and reaches 4 GiB. The loop never ends exactly when its last line's `p += 64` wraps past 2^64 (the ops then are those of the first pass). |
| Mmu.CacheRangeRevisits | src/memory.c:16-20 | After `p += 64` wraps, `p` is still below `end`, not above its old value and on the same line offset, so the loop comes back to the old `p`: it never ends. |
| Mmu.TopPageSkipped | src/memory.c:15-17 | The range [0xffff_f000, 4 GiB) gets no op, where 64 lines were meant. |
| Mmu.TopLineHangs | src/memory.c:16-20 | A range holding only the line at 0xffff_ffc0 makes the loop never end. |
| Mmu.CacheRangeIntended | src/memory.c:12-21 | The intended stepping: addr, addr + 64, … below addr + length, ceil(length / 64) ops for every range. |
| Mmu.TableLines | src/memory.c:98-99 | Cleaning `__pgtables` (16 KiB) never hangs; it takes 256 lines at tableAddr + 64k, or none when the table lies in the top 16 KiB below 4 GiB. |
| Mmu.MmuActiveIsBit0 | src/memory.h:43-46 | mmu_active is SCTLR bit 0. |
| Mmu.Shutdown | src/memory.c:110-119 | The data cache is cleaned once, and SCTLR is written once with A, I, C and M cleared. |
| Mmu.ShutdownBits | src/memory.c:110-119 | Exactly bits 0, 1, 2 and 12 are cleared. |
| Mmu.Disable | src/memory.c:121-131 | It returns the old SCTLR. With M clear it writes nothing. Otherwise it cleans the cache and writes old AND NOT (I, C, M). Translation is then off. |
| Mmu.Restore | src/memory.c:133-136 | It writes the saved SCTLR back. |
| Mmu.DisableThenRestore | src/memory.c:121-136 | mmu_restore(mmu_disable()) leaves SCTLR as it was. |
| Mmu.InitSctlrBits | src/memory.c:102-106 | mmu_init clears A, sets Z, M and I, and keeps every other SCTLR bit. |
| Mmu.PageTables.constructor | src/memory.h:8-9 | The table has 4096 entries. |
| Mmu.PageTables.AddMapping | src/memory.c:49-65 | Entries from `from >> 20` on, `size >> 20` of them, map the sections from `to >> 20` on with the section attribute word. No other entry changes. |
| Mmu.PageTables.FillSections | src/memory.c:60-64 | The descriptor loop writes the consecutive section entries and nothing else. |
| Mmu.PageTables.MapDevices | src/memory.c:81-90 | The table is zeroed and the device ranges are identity-mapped in order. |
| Mmu.PageTables.Init | src/memory.c:67-108 | Without the ranges property nothing changes: the table, the cleaned lines, SCTLR, DACR, TTBR0 and TTBCR keep their values. Otherwise: device ranges are mapped; RAM from phys_base is mapped over mem_size rounded up to 16 MiB; DACR, TTBR0 and TTBCR are set; the table's 256 lines are cleaned (none when it lies in the top 16 KiB below 4 GiB, as the cache range stepping gives); and SCTLR is written once with the mmu_init bits. |
| Bits.BitBits | src/types.h:49 | BIT(x) has bit x set and no other. |
| Bits.MaskBits | src/types.h:50 | MASK(x) has exactly the bits below x set. |
| Bits.GenMaskBits | src/types.h:51 | GENMASK(msb, lsb) has exactly the bits lsb to msb set. |
| Bits.FieldLsbBits | src/types.h:52 | _FIELD_LSB(f) is 0 for 0, and otherwise the single bit of f below which f has no bit. |
| Bits.FieldLsbOfGenMask | src/types.h:51-52 | The lowest set bit of GENMASK(msb, lsb) is BIT(lsb). |
| Bits.BitIndexOfBit | src/types.h:49 | The position BitIndex reads off BIT(n) is n. |
| Bits.LowBitIsLsb | src/types.h:52 | A non-zero field's lowest set bit lies below bit 32, and BIT of its position is _FIELD_LSB. |
| Bits.LowBitOfGenMask | src/types.h:51-52 | GENMASK(msb, lsb) is non-zero and its lowest set bit is at lsb. |
| Bits.QuotientBit | src/types.h:54 | Dividing a u32 by BIT(n) is a logical shift right by n. |
| Bits.ProductBit | src/types.h:53 | Multiplying a u32 by BIT(n) is a shift left by n, modulo 2^32. |
| Bits.FieldPrepIsProduct | src/types.h:52-53 | FIELD_PREP's multiplication by _FIELD_LSB(field) is the shift by the field's position, and 0 for an empty field. |
| Bits.FieldGetIsQuotient | src/types.h:52-54 | FIELD_GET's division of the masked value by _FIELD_LSB(field) is the shift down by the field's position. |
| Bits.FieldPrepIsShift | src/types.h:53 | FIELD_PREP on a contiguous field is a shift to the field's position. |
| Bits.ShiftInsideMask | src/types.h:51-53 | A value that fits the field's width, shifted to the field's position, has no bit outside GENMASK(msb, lsb). |
| Bits.ShiftBackFromMask | src/types.h:51-54 | Such a value, shifted to the field, masked and shifted back, is itself. |
| Bits.FieldPrepInside | src/types.h:51-53 | FIELD_PREP of a value that fits the field sets no bit outside the field. |
| Bits.FieldGetOfPrep | src/types.h:51-54 | FIELD_GET recovers a value that fits the field from its FIELD_PREP. |
| Bits.FieldRoundTrip | src/types.h:51-54 | For every contiguous field GENMASK(msb, lsb) and value below 1 << (msb + 1 - lsb): FIELD_PREP lands inside the field, and FIELD_GET gives the value back. |
| Bits.DeviceIdField | src/clkrstgen.c:124 | FIELD_GET(GENMASK(7, 0), x) is the low byte of x, and it undoes FIELD_PREP for a byte. |
| Bits.DomainField | src/memory.c:58 | FIELD_PREP(ATTR_DOMAIN, x) stays inside the domain field, and FIELD_GET recovers x. |
| Bits.AlignDownBounds | src/utils.h:53 | ALIGN_DOWN(x, a) is a multiple of a, at most x, and less than a below it. |
| Bits.AlignUpBounds | src/utils.h:52 | Without overflow, ALIGN_UP(x, a) is at least x and less than a above it. |
| Bits.AlignUpAligned | src/utils.h:52 | ALIGN_UP(x, a) is a multiple of a, wrapped or not. |
| Bits.AlignedFixed | src/utils.h:52-53 | A multiple of a is its own ALIGN_DOWN, and its own ALIGN_UP without overflow. |
| Bits.StackAlignFits | src/types.h:31-37 | The STACK_ALIGN pointer is aligned, lies past the array start, and its elements end within the array. |
| Boot.BootArgs.constructor | src/startup.c:89-91 | The monitor's copy of the boot arguments, before any allocation. |
| Boot.BootArgs.TopOfMemoryAlloc | src/utils.c:165-182 | mem_size is lowered by the page-rounded size, plus one page on the first call. The block returned is phys_base + new mem_size + 4096. |
| Boot.BlockAboveGuardPage | src/utils.c:168-181 | Every block starts one page above the new top of memory, leaving the guard page below it. |
| Boot.FirstBlockAtTop | src/utils.c:168-173 | The first block ends exactly at the old top of memory. |
| Boot.GuardedBlockEnd | src/utils.c:175-179 | Once the guard page exists, a block ends one page above the top it was carved from. |
| Boot.NextBlockAdjacent | src/utils.c:165-182 | The next block ends where the previous one begins: blocks are adjacent and descending. |
| Boot.FirstCallLowers | src/utils.c:168-173 | Without wrap-around, the first call lowers mem_size by the rounded size plus one page. |
| Boot.BootArgs.MiniStart | src/startup.c:86-106 | mem_size becomes the framebuffer end minus phys_base. The device tree gets a top-of-memory block, and its source is the physical address of the boot-time pointer. |
| Boot.FramebufferEndExact | src/startup.c:94-96 | Without wrap-around, mem_size spans from phys_base to the end of the framebuffer. |
| Boot.AdtSourceTranslates | src/startup.c:103 | A device tree at virt_base + k is read from phys_base + k. |
| Boot.TicksToMsecs | src/utils.c:141-145 | The result is the number of whole milliseconds in the ticks at 24 MHz. |
| Boot.TicksToUsecs | src/utils.c:147-151 | The result is the number of whole microseconds in the ticks at 24 MHz. |
| Boot.MsecsFromUsecs | src/utils.c:141-151 | Milliseconds are microseconds / 1000. |
| Boot.ApplyRela | src/startup.c:32-51 | It needs only the words of the entries it reaches (those up to the first non-R_ARM_RELATIVE one) to be mapped. It halts with "R!" exactly when some entry is not R_ARM_RELATIVE. Otherwise memory is every named word increased by base, in order. |
| Boot.RelocatedFrame | src/startup.c:34-50 | Bytes that no entry names keep their value, and an empty range changes nothing. |
| Boot.RelocateWordReads | src/startup.c:40-42 | A relocated word reads as old + base modulo 2^32. |
| Boot.SameOffsetTwice | src/startup.c:41 | Two entries for one offset relocate the word twice. |
| Boot.WrapAddMoves | src/startup.c:41 | Adding a base that is non-zero modulo 2^32 changes the word, so relocation is not idempotent. |
| Kboot.FindFrom | src/kboot.c:494-506 | The scan stops at the first slot that is empty or holds the name. |
| Kboot.EmptyTableOk | src/kboot.c:28 | The zeroed table is well formed: occupied slots form a prefix, names are unique, and empty slots have no value. |
| Kboot.ExistingNameReused | src/kboot.c:501-505 | A name already present is found in its own slot. |
| Kboot.NewNameFirstEmpty | src/kboot.c:494-500 | A new name goes into the first empty slot, and when none is empty the table is full. |
| Kboot.ChosenKeepsTable | src/kboot.c:494-516 | Setting a parameter keeps the table well formed, so no duplicate name arises. |
| Kboot.ChosenLookup | src/kboot.c:494-516 | Afterwards the table holds the name with the new value (None for NULL), and only that. Every other name is unchanged. |
| Kboot.Chosen | src/kboot.c:509-516 | A successful set puts the pair in the found slot and leaves every other slot alone. |
| Kboot.KbootState.constructor | src/kboot.c:24-28 | All 16 slots are empty. There is no initrd and no next stage. |
| Kboot.KbootState.SetChosen | src/kboot.c:487-517 | A NULL name returns -1 and changes nothing. A full table of other names returns -1 and changes nothing. Otherwise the pair is stored in the found slot and its index is returned. |
| Kboot.KbootState.LogWrite | src/kboot.c:532-554 | With no buffer it returns 0 and changes nothing. Otherwise the ring becomes the bytes written in order from wp with wrap-around, wp becomes (wp + len) mod 16384, and it returns len. |
| Kboot.RingWriteAppend | src/kboot.c:540-551 | Writing a and then b is writing a + b. |
| Kboot.RingWriteChunk | src/kboot.c:540-551 | A stretch that fits before the end of the buffer is one contiguous copy. |
| Kboot.RingWriteLands | src/kboot.c:540-551 | Each of the last min(len, 16384) bytes ends at position (wp + j) mod 16384. |
| Kboot.RingWriteKeeps | src/kboot.c:540-551 | Positions the write does not reach keep their bytes. |
| Kboot.RingWriteFrame | src/kboot.c:540-551 | A position that none of the written bytes reaches keeps its byte. |
| Kboot.KbootState.Boot | src/kboot.c:651-665 | The entry is the kernel, the args are {0, ~0, dt, 0}, the logo is not restored, and it returns 0. |
| Kboot.KbootState.SetInitrd | src/kboot.c:477-485 | The initrd is moved to a new top-of-memory block, whose address and size are recorded. |
| Clkrstgen.DeviceLayout | src/clkrstgen.h:7-20 | The packed struct is 60 bytes, and PS0..PS4 sit at 0x200 + 4k. |
| Clkrstgen.DecodeDevice | src/clkrstgen.h:7-20 | ps0..ps4 are the u32s at bytes 8 to 28, the name is bytes 40 to 58, and the id is byte 59. |
| Clkrstgen.DecodeDevices | src/clkrstgen.c:180-181 | The table is (len - 4) / 60 structs after a 4-byte header. |
| Clkrstgen.NamedFrom | src/clkrstgen.c:51-56 | The first device whose name matches within 16 characters. |
| Clkrstgen.IdFrom | src/clkrstgen.c:83-90 | The first device with the id. |
| Clkrstgen.ToggleWordBits | src/clkrstgen.c:28-45 | Enabling clears the mask's bits in a register, and disabling sets them. |
| Clkrstgen.ToggleWordKeeps | src/clkrstgen.c:28-45 | Bits outside the mask are unchanged. |
| Clkrstgen.ToggleWordTwice | src/clkrstgen.c:30-42 | Clearing (or setting) a register's mask twice is doing it once. |
| Clkrstgen.ToggleTwice | src/clkrstgen.c:30-42 | Toggling a device twice the same way is toggling it once. |
| Clkrstgen.SetModeIsMask | src/clkrstgen.c:123-139 | A clock-gates pass toggles, in each register, exactly the union of the named devices' bits. |
| Clkrstgen.GateRegsIsToggle | src/clkrstgen.c:124-138 | One clock-gates entry toggles the registers by the masks of the first device with its id, and by nothing when there is none. |
| Clkrstgen.SetModeTwice | src/clkrstgen.c:114-142 | Running the same pass twice is running it once. |
| Clkrstgen.Generator.constructor | src/clkrstgen.c:17-20 | Before init there are no devices and the base is 0. |
| Clkrstgen.Generator.Toggle | src/clkrstgen.c:28-45 | PS0..PS4 get the device's masks cleared (enable) or set (disable), and it returns 0. |
| Clkrstgen.Generator.FindNamed | src/clkrstgen.c:51-56 | It returns the first device with a matching name. |
| Clkrstgen.Generator.PowerOn | src/clkrstgen.c:47-62 | It enables the first matching device. With no match it returns -1 and writes nothing. |
| Clkrstgen.Generator.PowerOff | src/clkrstgen.c:64-79 | It disables the first matching device. With no match it returns -1 and writes nothing. |
| Clkrstgen.Generator.FindDevice | src/clkrstgen.c:81-93 | It returns 0 and the first device with the id, or -1 when there is none. |
| Clkrstgen.Generator.ApplyGate | src/clkrstgen.c:124-138 | Id 0 is skipped, an unknown id is reported, and a known id toggles its device. |
| Clkrstgen.Generator.SetMode | src/clkrstgen.c:95-142 | A missing or empty property returns -1 and writes nothing. Otherwise len / 4 entries are processed, and it returns 0 exactly when every nonzero id was found. |
| Clkrstgen.Generator.Init | src/clkrstgen.c:154-194 | A missing node, property or reg, or a property under 4 bytes, returns -1 and changes nothing. Otherwise the table is decoded and PS0..PS4 are zeroed. |
| Firmware.DigitCount | src/firmware.c:35-36 | The length of the leading digit run. |
| Firmware.RunsAreDigits | src/firmware.c:29-37 | Every run is a non-empty string of digits. |
| Firmware.NoDigitsNoRuns | src/firmware.c:30-33 | A string without digits has no runs. |
| Firmware.Atol | src/firmware.c:34 | The stored value is a u32. |
| Firmware.Components | src/firmware.c:27-37 | There are five components: the first five run values, then zeros. |
| Firmware.ComponentsIgnoreLater | src/firmware.c:29 | Runs after the fifth are ignored. |
| Firmware.SkipSeparators | src/firmware.c:30-31 | It stops at the next digit or the end, and skips no run. |
| Firmware.SkipDigits | src/firmware.c:35-36 | It advances exactly past the digit run. |
| Firmware.ParseVersion | src/firmware.c:25-38 | out holds the five components of the string's digit runs. |
| Firmware.FirstDiff | src/firmware.c:57-59 | The first index where the two arrays differ. |
| Firmware.LexLtIsFirstDiff | src/firmware.c:53-69 | a < b exactly when a is smaller at the first difference. |
| Firmware.LexLtTotal | src/firmware.c:53-69 | The order is total. |
| Firmware.InRangeOverreadsAtLow | src/firmware.c:57-61 | A version equal to min makes the code read index 5. |
| Firmware.InRangeOverreadsAtHigh | src/firmware.c:64-68 | A version equal to max, when min < max, makes the code read index 5. |
| Firmware.InRangeAsWrittenAgrees | src/firmware.c:53-69 | Where the code stays inside the arrays, it answers min <= this < max. |
| Firmware.IbootInRange | src/firmware.c:53-69 | It returns true exactly when min <= this < max lexicographically. |
| Firmware.MatchFrom | src/firmware.c:42-47 | The first table entry whose iboot string is the input. |
| Firmware.Detect | src/firmware.c:40-51 | An exact match copies that entry. Otherwise it copies V_UNKNOWN with the input as iboot. |
| Firmware.State.constructor | src/firmware.c:10-11 | Both globals start zeroed. |
| Firmware.State.Init | src/firmware.c:71-93 | It accepts only a present, non-empty, NUL-terminated property, sets both globals identically and returns 0. Otherwise it returns -1 and changes nothing. |

## Left out

- Commands with no model, and foreign calls.
  - The effects of `P_CALL`, `P_GET_BOOTARGS`, `P_GET_BASE`, the
    allocators (`heapblock_alloc`, `malloc`, `memalign`),
    `kboot_prepare_dt` and the iodev commands are not modelled. Their
    retval is a parameter (`Foreign.answer`).
  - The effects of `P_SET_BAUD`, `P_UDELAY`, the cache maintenance
    commands, `P_MMU_INIT_SECONDARY`, SMP start/stop, `P_FREE` and
    `P_IODEV_SET_USAGE` are not modelled. They reply S_OK with retval 0
    and change nothing the model holds, except that the five cache range
    commands never reply when their range hangs (see the Proxy.Process
    line below). The UART, the timer, the caches
    and the SMP and iodev layers are not part of this model;
    `mmu_init_secondary` programs the CP15 registers of another core,
    which the model does not hold; `free` belongs to the allocator, which
    is a parameter.
- Decoders: the XZ and tinf decoders are parameters. Only how their
  results become the retval is modelled.
- Opcode numbers: proxy.h is not part of this model. Opcodes are named
  constructors, and every refused command is one `Unsupported` constructor.
- The `dsb sy`/`isb` barriers before the guard is restored are ordering
  only and are left out.
- The trap-frame code that consumes `exc_guard` is not part of this model.
  Its outcomes are abstract: a dropped store, an all-ones load, or a bulk
  loop that stops.
- Printing is left out: the `exc_handler` register dump, the effect of
  `GUARD_SILENT` on it, and `printf`/`snprintf`/`debug_putc` everywhere.
- The spinlock is left out, because it concerns concurrency.
- `udelay`, the timer and the watchdog are left out. `get_hz` is the
  constant 24 MHz.
- Device-tree construction in kboot.c (`dt_set_*`, `kboot_prepare_dt`,
  reserved-memory nodes) is left out. It is a sequence of libfdt calls.
- Memory is one contiguous mapped block from address 0. Holes in the
  address map are not modelled.
- MMU translation does not affect the accesses of `Machine.Monitor`. The
  section table is modelled on its own.
- The five clkrstgen power-state registers are a 5-cell array, not memory
  at `base + 0x200..0x210`. The `unk0`..`unk4` device fields are dropped.
- `Mmu.PageTables.Init`: a missing `/arm-io` node and a missing `ranges`
  property are one case (`None`). Both return before any write.
- Boot.ApplyRela: after the "R!" halt the model gives no memory, because
  the loop never returns.
- Boot.BootArgs.MiniStart: copying the device tree, UART set-up,
  `get_device_info`, CPU init, `exception_initialize` and `mini_main` are
  not part of it. Only mini_start's arithmetic on the boot arguments is
  modelled.
- Machine.Monitor.MemSet: requires the guard to be GUARD_RETURN or fatal,
  the guards the code runs it under. Its behaviour under GUARD_SKIP or
  GUARD_MARK (a loop that resumes after each fault) is not stated.
- Machine.Monitor.MemCpy: requires GUARD_RETURN or a fatal guard, for the
  same reason.
- Machine.Monitor.MemSet: the unit addresses do not wrap at 2^32. The C
  steps a 32-bit pointer, so a buffer that runs past 0xffff_ffff continues
  at address 0; the model instead faults at the first unit past the end of
  memory (or, for a memory larger than 4 GiB, writes above 2^32).
- Machine.Monitor.MemCpy: the source and destination addresses do not wrap
  at 2^32, as for MemSet.
- Proxy.FillCmd: inherits MemSet's unwrapped unit addresses; only the start
  address is cut to 32 bits.
- Proxy.CopyCmd: inherits MemCpy's unwrapped unit addresses; only the start
  addresses are cut to 32 bits.
- Machine.Poll32: the register reads are a sampling function
  `sample(k)`, not hardware reads.
- Machine.Poll64: the register reads are a sampling function, as for
  Poll32.
- Proxy.StagingCmd: states only what `Process` relies on. The per-command
  methods TopAllocCmd, SetChosenCmd and SetInitrdCmd state the full
  outcome of each staging command.
- Proxy.Process: for P_TOP_OF_MEMORY_ALLOC, P_KBOOT_SET_CHOSEN and
  P_KBOOT_SET_INITRD it states only that the boot-argument and staging
  invariants hold and that memory changes only for the initrd. Their full
  outcome is the per-command methods'.
- Proxy.Process: P_KBOOT_BOOT's fall-through into `P_KBOOT_SET_CHOSEN`
  needs `kboot_boot` to return non-zero. It never does, so the path is not
  modelled.
- Proxy.SetInitrdCmd: requires the source and the new block to lie in
  mapped memory. The C copies with a plain `memcpy` under whatever guard
  is in force, and the outcome of a faulting copy (a reboot under a fatal
  guard, a skipped, marked or ended copy otherwise) is not modelled.
- Proxy.CopyCmd: for P_MEMCPY8 copies `size` single bytes, the intended
  memcpy8, not the 16-bit units memcpy8 as written copies. The code as
  written is Machine.Monitor.Memcpy8AsWritten (see Findings).
- Proxy.AccessCmd: its P_MEMCPY8 arm is CopyCmd's byte copy, as above.
- Proxy.Process: P_MEMCPY8 is the byte copy, as for CopyCmd; and
  P_SLEEP/P_EL3_CALL reply S_BADCMD without the store of the code as
  written (RejectedAsWritten, see Findings).
- Proxy.Process: P_IC_IVAU, P_DC_IVAC, P_DC_CVAC, P_DC_CVAU and
  P_DC_CIVAC never reply when `Mmu.RangeHangs(Low32(args[0]),
  Low32(args[1]))` holds, because the cache range loop never ends
  (Proxy.CacheCmdCanHang). The model replies S_OK with retval 0 for them
  on every input.
- Proxy.MonitorCmd: its cache arm replies S_OK for the five range
  commands on every input, including a hanging range, as for Process.
- Proxy.HostCmd: the same reply for a hanging cache range, as for Process.
- Proxy.CoreCmd: the same reply for a hanging cache range, as for Process.
- Proxy.MmuInitCmd: requires every device range of the `ranges` property,
  and the RAM mapping, to be 1 MiB aligned and to end within the 4096
  table entries. mmu_init checks neither. A misaligned bus, size or
  phys_base fails the assertion of mmu_add_mapping, and `__assert_fail`
  reboots. A range that runs past 4 GiB writes past `__pgtables`. Neither
  outcome is modelled.
- Proxy.Process: P_MMU_INIT requires the same of the `ranges` property as
  MmuInitCmd. Its "reboots only on P_REBOOT" holds only for such ranges.
- Mmu.PageTables.Init: requires aligned ranges and RAM mapping that fit the
  table, as for MmuInitCmd; the assertion reboot and the table overrun are
  not modelled.
- Mmu.PageTables.MapDevices: requires aligned device ranges that fit the
  table; the assertion reboot and the table overrun are not modelled.
- Machine.Monitor: `exc_count` is an unbounded integer. The C `int`'s
  overflow after 2^31 - 1 faults is not modelled.
- Kboot.KbootState.Boot: `usb_init()` at the start of `kboot_boot` is not
  modelled; the USB stack is not part of this model.
- Kboot.KbootState.SetChosen: a `calloc` failure is not modelled. Names
  and values are whole strings.
- Firmware.Atol: a digit run's value is taken modulo 2^32. C `atol`'s
  behaviour on overflow is undefined.
- Firmware.ParseVersion: takes the characters before the string's NUL, so
  it requires them to contain no NUL.
- Firmware.Detect: the table holds only `V_UNKNOWN`, as in this build.

## Findings

| source | as written | input that shows it | evidently intended | confidence | as-written member | corrected member |
|---|---|---|---|---|---|---|
| src/utils.c:111-118 | `memcpy8` loops `size` times over `u16` pointers, so it copies `size` 16-bit units (2 * size bytes) | `size` 1 with both 2-byte units mapped: the byte after the destination receives the byte after the source (Machine.Memcpy8Overrun) | copy exactly `size` bytes, one byte per iteration, as memcpy16/32/64 do for their units; proved for the byte copy in Machine.Memcpy8Intended | not executed | Machine.Monitor.Memcpy8AsWritten | Proxy.CopyCmd |
| src/proxy.c:85-91 | `P_SLEEP` and `P_EL3_CALL` set S_BADCMD and, with no `break`, fall into `P_WRITE64`, which stores args[1] at args[0] under GUARD_SKIP | `P_SLEEP` with args[0] a mapped address whose u64 differs from args[1]: memory changes (Proxy.RejectedStoreVisible) | a refused command replies S_BADCMD with retval 0 and no side effect | not executed | Proxy.RejectedAsWritten | Proxy.Process |
| src/firmware.c:57-68 | when `this` equals `min` (or `max`) in all five components, the loop exits with `i == 5` and `this[5]`/`min[5]` are read past the arrays | `this == min` (Firmware.InRangeOverreadsAtLow) | true exactly when min <= this < max in lexicographic order | not executed | Firmware.InRangeOverreadsAtLow | Firmware.IbootInRange |
| src/memory.c:12-21 | `p` is the sign-extended pointer and `end = p + length` is u64 arithmetic: a range that starts in the upper half and reaches 4 GiB makes `end` wrap below `p`, and one whose last line is the top line makes `p += 64` wrap below `end` for ever | `[0xffff_f000, 4 GiB)` gets no op (Mmu.TopPageSkipped); the single line at 0xffff_ffc0 never ends (Mmu.TopLineHangs, Mmu.CacheRangeRevisits), reachable from the host as P_DC_CVAC with args 0xffff_ffc0 and 1 (Proxy.CacheCmdCanHang) | one op every 64 bytes from addr below addr + length, ceil(length / 64) of them, for every range | not executed | Mmu.CacheRange | Mmu.CacheRangeIntended |
