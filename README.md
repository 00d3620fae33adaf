# NES emulator core: memory, bus, PPU address latch and the early CPU

This project models the core of a small NES emulator written in C++. It has
four parts:

- **The flat memory of the early design** (`Memory`): 0xFFFF bytes with
  8-bit and little-endian 16-bit access and a block copy.
- **The bus of the later design** (`Bus`): the same byte array, with these
  additions:
  - writes to the PPU's memory-mapped registers go to the PPU instead of
    being stored;
  - reads of the write-only PPU registers are fatal;
  - a 16-bit read that wraps inside the zero page;
  - two's-complement decoding of a byte;
  - the PRG copy at $8000, mirrored at $C000.
- **The PPU's address register:** a two-byte latch that fills the high byte
  first, then the low byte, and then alternates.
- **The early CPU:**
  - registers pc, sp, a, x, y and the status byte, plus the status accessors;
  - reset from the vector at $FFFC;
  - the zero/"negative" flag update;
  - five addressing modes;
  - a fetch/execute loop of exactly ten steps over ten opcodes.

The PPU is abstracted as a record of the last byte given to each of its
setters. Its address setter feeds the latch.

## Structure

Each part that the emulator updates in place is a class. Its methods are
proved against pure functions of the old state, and lemmas about those
functions state what the emulator promises.

| file | module | contents |
|---|---|---|
| `wrappers.dfy` | `Wrappers` | `Option`, `Result` |
| `bytes.dfy` | `Bytes` | `byte`, `word`, truncation to 16 bits, low/high halves |
| `memory.dfy` | `FlatMemory` | the block copy, 16-bit load/store on sequences, class `Memory` over an `array<byte>` |
| `address_register.dfy` | `AddressLatch` | the latch as a value, class `AddressRegister` |
| `ppu.dfy` | `PpuRegisters` | the setter record, class `Ppu` |
| `bus.dfy` | `AddressBus` | forwarding, fatal reads, zero-page read, signed read, mirroring, class `Bus` |
| `status.dfy` | `StatusFlags` | the status accessors against a bit reference |
| `cpu_semantics.dfy` | `CpuSemantics` | the CPU as functions: reset, flag update, addressing, handlers, decode, one step, `n` steps |
| `cpu_engine.dfy` | `CpuEngine` | class `Cpu`: the same handlers as methods on fields, with the ten-step loop |
| `scenarios.dfy` | `Scenarios` | `System::insertDisk` as a function and as class `System`, and the CPU tests replayed on it |

Modelling choices:

- A CPU access outside the 0xFFFF-cell array is undefined behaviour in the
  C++. A step that makes such an access yields `None`, and the `Cpu`
  methods require a defined step.
- A fatal bus read, which prints a message and calls `exit(1)`, is a
  `Failure(PpuRegisterNotReadable(addr))`.
- Every `unsigned short` increment goes through `Wrap16`.

## Where the code differs from the documented 6502 behaviour

The model follows the code as written:

- `updateZeroAndNegativeFlag` writes the sign of the result to bit 6.
  - The documented status layout has the overflow flag in bit 6 and the
    negative flag in bit 7.
  - So after `LDA #$C0` the status is $40, as `test/cputest.cpp` expects,
    and `getNegative` never sees the sign (`FlagUpdateAsSeenByAccessors`).
- ZERO_PAGE_X and ZERO_PAGE_Y add the index without wrapping to 8 bits:
  $FF plus 2 is $0101 (`ZeroPageIndexedDoesNotWrap`).
- `resetInterrupt` does not touch sp and clears the status to 0. The
  documented reset sets sp to $FD and uses a non-zero status.
- The ABSOLUTE load moves pc by two in total: one inside `lda` and one in
  the loop. The operand's high byte is therefore fetched next as an opcode
  (`StepAdvancesPc`, `LdaAbsoluteRun`).
- `run` does not stop at opcode 0x00. It always executes ten steps, and
  0x00 changes nothing but pc.
- A write to $4014 goes to `setOamData`, not to `setOamDma`.
- `readData` always copies to $C000. A 16 KB PRG does not fit there,
  because the array ends at $FFFE, so `Mirror` requires
  `0xC000 + |data| <= 0xFFFF`.
- The memory array has 0xFFFF cells, not 65536. Index $FFFF is outside it,
  so the word at $FFFE cannot be read. An absolute load from $FFFF is
  undefined (`LoadAbsoluteOutside`).

## Model

| member | source | states |
|---|---|---|
| Bytes.Wrap16 | src/cpu/cpu.cpp:38 | `pc++` on an `unsigned short`: an in-range value is kept, and any result is congruent to the input modulo 2^16 |
| Bytes.HalvesOfWord | src/memory.cpp:29-34 | joining two bytes as `p2 * 256 + p1` and splitting the word gives both bytes back |
| Bytes.WordOfHalves | src/memory.cpp:17-21 | splitting a word with `& 0x00ff` and `(& 0xff00) >> 8` and joining the halves gives the word back |
| FlatMemory.Blit | src/memory.cpp:6-9 | after the copy, cells `at .. at+n-1` hold the data and every other cell is unchanged; the copy must fit in the array |
| FlatMemory.Load16 | src/memory.cpp:29-34 | the word read at `addr` is `memory[addr+1] * 256 + memory[addr]` |
| FlatMemory.Store16 | src/memory.cpp:17-21 | the low byte lands at `addr`, the high byte at `addr+1`, and no other cell changes |
| FlatMemory.Load16OfStore16 | test/memorytest.cpp:25-37 | a word written with `write_16` reads back unchanged with `read_16` |
| FlatMemory.BlitThenLoad16 | test/memorytest.cpp:12-23 | the bytes {0x34, 0x12} copied to address 0 read back as the word 0x1234 |
| FlatMemory.Memory.constructor | src/memory.h:14 | the memory is a fresh array of exactly 0xFFFF cells |
| FlatMemory.Memory.Write | src/memory.cpp:6-9 | the loop copy leaves the array equal to `Blit` of its old contents |
| FlatMemory.Memory.Write8 | src/memory.cpp:11-14 | only cell `addr` changes, and it takes the byte |
| FlatMemory.Memory.Write16 | src/memory.cpp:17-21 | the array becomes `Store16` of its old contents |
| FlatMemory.Memory.Read | src/memory.cpp:23-26 | returns the cell and changes nothing |
| FlatMemory.Memory.Read16 | src/memory.cpp:29-34 | returns `Load16` of the cells and changes nothing |
| AddressLatch.Store | src/ppu/address_register.cpp:8-16 | a write flips the latch; in the high state it sets only the high byte, in the low state only the low byte |
| AddressLatch.Value | src/ppu/address_register.cpp:18-21 | the value read has the high byte above the low byte |
| AddressLatch.StoreAll | src/ppu/address_register.cpp:8-16 | no writes leave the latch as it was; after any writes, the half filled last holds the last byte written |
| AddressLatch.StoreAllParity | src/ppu/address_register.cpp:15 | after `n` writes the latch is in its starting state exactly when `n` is even |
| AddressLatch.StoreAllLastPair | src/ppu/address_register.cpp:8-21 | from the high state, after an even number of writes the register reads `b1 * 256 + b2` for the last two bytes written |
| AddressLatch.AddressRegister.constructor | src/ppu/address_register.cpp:6 | a new register starts in the high state |
| AddressLatch.AddressRegister.Write | src/ppu/address_register.cpp:8-16 | the fields become `Store` of the old latch |
| AddressLatch.AddressRegister.Read | src/ppu/address_register.cpp:18-21 | reading gives `Value` of the latch and changes nothing |
| PpuRegisters.Set | src/ppu/ppu.h:19-26 | the named setter's register takes the byte (the address register is written through the latch); every other register is unchanged |
| PpuRegisters.Ppu.constructor | src/ppu/ppu.h:9-12 | a new PPU owns a new address register in the high state |
| PpuRegisters.Ppu.SetControl | src/ppu/ppu.h:19 | the PPU state becomes `Set(old, Control, v)` |
| PpuRegisters.Ppu.SetMask | src/ppu/ppu.h:20 | the PPU state becomes `Set(old, Mask, v)` |
| PpuRegisters.Ppu.SetOamAddress | src/ppu/ppu.h:21 | the PPU state becomes `Set(old, OamAddress, v)` |
| PpuRegisters.Ppu.SetOamData | src/ppu/ppu.h:22 | the PPU state becomes `Set(old, OamData, v)` |
| PpuRegisters.Ppu.SetScroll | src/ppu/ppu.h:23 | the PPU state becomes `Set(old, Scroll, v)` |
| PpuRegisters.Ppu.SetAddress | src/ppu/ppu.h:24 | the PPU state becomes `Set(old, Address, v)`, a write to the latch |
| PpuRegisters.Ppu.SetData | src/ppu/ppu.h:25 | the PPU state becomes `Set(old, Data, v)` |
| PpuRegisters.Ppu.SetOamDma | src/ppu/ppu.h:26 | the PPU state becomes `Set(old, OamDma, v)` |
| AddressBus.ForwardTarget | src/bus.cpp:23-43 | exactly $2000, $2001, $2003 to $2007 and $4014 are forwarded; $4014 goes to the OAM data setter, and nothing goes to the OAM DMA setter |
| AddressBus.Store8 | src/bus.cpp:23-43 | a forwarded write leaves the array unchanged and calls the setter of that address's register with the byte; any other write stores the byte at that index and leaves the PPU unchanged |
| AddressBus.Store16 | src/bus.cpp:46-50 | only `addr` and `addr+1` can change; a plain-RAM half holds its byte of the word and a forwarded half keeps its cell; the PPU receives the low byte at `addr`, then the high byte at `addr+1`, each through its setter if that address is forwarded |
| AddressBus.ForwardedWrites | src/bus.cpp:25-40 | a write to $2000, $2001, $2003-$2007 sets exactly that setter's register and no RAM cell; $4014 sets the OAM data register; no bus write touches the OAM DMA register |
| AddressBus.Load | src/bus.cpp:52-59 | a read fails exactly at $2000, $2001, $2003, $2005, $2006 and $4014 (all forwarded addresses); any other read returns the stored byte |
| AddressBus.Load16 | src/bus.cpp:62-67 | fails exactly when one of the two reads fails; otherwise returns the little-endian word |
| AddressBus.ZeroPageLoad16 | src/bus.cpp:69-74 | the low byte comes from `addr mod 256` and the high byte from `(addr+1) mod 256` |
| AddressBus.Signed | src/bus.cpp:76-81 | the decoded value lies in [-128, 127], is negative exactly when bit 7 is set, and is congruent to the byte modulo 256 |
| AddressBus.LoadSigned | src/bus.cpp:76-81 | fails exactly when the read fails; otherwise returns the signed value of the byte |
| AddressBus.Mirror | src/bus.cpp:11-16 | the PRG bytes sit at $8000 and at $C000, and every cell outside both copies is unchanged |
| AddressBus.Load16OfStore16 | test/memory_test.cpp:24-36 | on plain RAM, a word stored with `write_16` reads back with `read_16`, and the PPU is untouched |
| AddressBus.PpuAddressWrites | test/ppu_register_test.cpp:27-28 | writing $40 then $02 to $2006 leaves the array unchanged and makes the PPU address $4002 |
| AddressBus.ZeroPageLoad16Mod | src/bus.cpp:69-74 | the zero-page word depends only on the address modulo 256 |
| AddressBus.ZeroPageLoad16Wraps | src/bus.cpp:69-74 | a pointer at $xxFF takes its high byte from cell $00 |
| AddressBus.MirrorAgrees | src/bus.cpp:11-16 | the two PRG copies agree byte for byte |
| AddressBus.Bus.constructor | src/bus.h:16 | the bus keeps the PPU it is given and owns a fresh 0xFFFF-byte array |
| AddressBus.Bus.ReadData | src/bus.cpp:11-16 | the array becomes `Mirror` of its old contents |
| AddressBus.Bus.Write | src/bus.cpp:18-21 | the block copy is `Blit` on the array and bypasses PPU forwarding |
| AddressBus.Bus.Write8 | src/bus.cpp:23-43 | the array and PPU together become `Store8` of their old state |
| AddressBus.Bus.Write16 | src/bus.cpp:46-50 | the array and PPU together become `Store16` of their old state |
| AddressBus.Bus.Read | src/bus.cpp:52-59 | returns `Load` of the array, a failure for the fatal addresses |
| AddressBus.Bus.Read16 | src/bus.cpp:62-67 | returns `Load16` of the array |
| AddressBus.Bus.Read16ZeroPageWrap | src/bus.cpp:69-74 | returns `ZeroPageLoad16` of the array |
| AddressBus.Bus.ReadSigned | src/bus.cpp:76-81 | returns `LoadSigned` of the array |
| StatusFlags.Bit | src/cpu/cpu.h:98-108 | bit `k` of the status byte is 0 or 1 |
| StatusFlags.Zero | src/cpu/cpu.h:20 | `getZero` is bit 1 of the status |
| StatusFlags.Carry | src/cpu/cpu.h:115-118 | `getCarry` is bit 0 of the status |
| StatusFlags.Negative | src/cpu/cpu.h:120-123 | `getNegative` is bit 7 of the status |
| StatusFlags.Overflow | src/cpu/cpu.h:125-128 | `getOverflow` is bit 6 of the status |
| StatusFlags.StackAddress | src/cpu/cpu.h:110-113 | `getSP_16` is $0100 + sp, in $0100..$01FF, with sp as its low byte and $01 as its high byte |
| CpuSemantics.ResetState | src/cpu/cpu.cpp:24-30 | a, x, y and the status are cleared; pc and sp are kept |
| CpuSemantics.Reset | src/cpu/cpu.cpp:17-21 | pc is the little-endian word at $FFFC; a, x, y and the status are zero; sp is unchanged |
| CpuSemantics.UpdateZeroAndNegativeFlag | src/cpu/cpu.cpp:112-125 | bit 1 is set exactly when the result is zero, bit 6 exactly when the result is at least $80, and no other bit changes |
| CpuSemantics.FlagUpdateKeepsOtherFlags | src/cpu/cpu.cpp:112-125 | the flag update keeps the carry, interrupt-disable, decimal and bit-7 flags |
| CpuSemantics.GetAddress | src/cpu/cpu.cpp:127-142 | IMMEDIATE gives pc, ZERO_PAGE the byte at pc, ZERO_PAGE_X/Y that byte plus x or y with no 8-bit wrap, ABSOLUTE the little-endian word at pc |
| CpuSemantics.Operand | src/cpu/cpu.cpp:78 | the operand read is the byte at the effective address; IMMEDIATE reads the byte at pc, ZERO_PAGE the byte it points to, the indexed zero-page modes always stay inside the array, and ABSOLUTE fails exactly for address $FFFF |
| CpuSemantics.Set | src/cpu/cpu.cpp:75-96 | a load's target register takes the byte; the other two registers, pc, sp and the status are unchanged |
| CpuSemantics.LoadRegister | src/cpu/cpu.cpp:75-96 | `lda`/`ldx`/`ldy` are undefined exactly when the operand lies outside the array; otherwise the target takes the operand at the address resolved after `pc++`, and only the target, pc and the flags change |
| CpuSemantics.Tax | src/cpu/cpu.cpp:99-103 | x takes a; only x and the flags change, and the flags follow a |
| CpuSemantics.Inx | src/cpu/cpu.cpp:106-110 | x becomes x + 1 modulo 256 and the flags follow it; $FF becomes 0 with the zero flag set |
| CpuSemantics.Decode | src/cpu/cpu.cpp:45-72 | an opcode selects no handler exactly when it is not one of the nine dispatched opcodes; it selects a load exactly when the handler consumes an operand byte |
| CpuSemantics.Exec | src/cpu/cpu.cpp:45-72 | an undispatched opcode, including 0x00, changes nothing; no handler changes sp |
| CpuSemantics.Step | src/cpu/cpu.cpp:36-38 | a defined step starts inside the array and keeps sp |
| CpuSemantics.Run | src/cpu/cpu.cpp:32-39 | zero steps change nothing, and no defined run of the loop changes the stack pointer (by induction over the steps) |
| CpuSemantics.StepAdvancesPc | src/cpu/cpu.cpp:36-38 | each step moves pc one past the opcode plus the operand bytes the handler consumed, so an absolute load moves it by only two |
| CpuSemantics.LoadImmediateStep | src/cpu/cpu.cpp:75-96 | an immediate load puts the byte after the opcode in its register, moves pc by two, and changes only the flags besides |
| CpuSemantics.LoadZeroPageStep | src/cpu/cpu.cpp:133-134 | LDA zp loads the byte at the zero-page address that follows the opcode |
| CpuSemantics.LoadZeroPageXStep | src/cpu/cpu.cpp:135-136 | LDA zp,X loads the byte at zp + x, not wrapped to the zero page |
| CpuSemantics.LoadZeroPageYStep | src/cpu/cpu.cpp:137-138 | LDX zp,Y loads the byte at zp + y, not wrapped to the zero page |
| CpuSemantics.LoadAbsoluteStep | src/cpu/cpu.cpp:139-140 | LDA abs loads the byte at the little-endian address after the opcode, and pc moves by two |
| CpuSemantics.LoadAbsoluteOutside | src/cpu/cpu.cpp:78 | LDA $FFFF reads past the last cell, so the step is undefined |
| CpuSemantics.TransferAndIncrementStep | src/cpu/cpu.cpp:99-110 | a TAX or INX step is the handler's register update, with pc one past the opcode |
| CpuSemantics.FlagUpdateAsSeenByAccessors | src/cpu/cpu.cpp:112-125 | after the flag update, `getZero` reports a zero result and `getOverflow` a result of at least $80; `getNegative` and `getCarry` are unchanged |
| CpuSemantics.ZeroPageIndexedDoesNotWrap | src/cpu/cpu.cpp:135-136 | $FF plus x = 2 resolves to $0101 |
| CpuSemantics.RunFirstStep | src/cpu/cpu.cpp:34-39 | a defined run of `n > 0` steps is one defined step followed by a run of `n - 1` steps |
| CpuSemantics.RunAfterStep | src/cpu/cpu.cpp:34-39 | a defined step followed by `n` steps is a run of `n + 1` steps |
| CpuSemantics.UndispatchedStep | src/cpu/cpu.cpp:49-50 | a step over 0x00 or any undispatched opcode only moves pc past it |
| CpuSemantics.ZeroBytesRun | src/cpu/cpu.cpp:49-50 | over `n` zero bytes a run of `n` steps only moves pc by `n` |
| CpuEngine.Cpu.constructor | src/cpu/cpu.cpp:10-14 | a new CPU uses the system's memory and has a, x, y and the status at zero |
| CpuEngine.Cpu.GetPC | src/cpu/cpu.h:14 | `getPC` returns pc, a value in 0..$FFFF |
| CpuEngine.Cpu.GetA | src/cpu/cpu.h:15 | `getA` returns the accumulator |
| CpuEngine.Cpu.GetX | src/cpu/cpu.h:16 | `getX` returns x |
| CpuEngine.Cpu.GetY | src/cpu/cpu.h:17 | `getY` returns y |
| CpuEngine.Cpu.GetSP | src/cpu/cpu.h:18 | `getSP` returns sp |
| CpuEngine.Cpu.GetStatus | src/cpu/cpu.h:19 | `getStatus` returns the status byte |
| CpuEngine.Cpu.GetZero | src/cpu/cpu.h:20 | `getZero` is bit 1 of the status |
| CpuEngine.Cpu.GetSP16 | src/cpu/cpu.h:110-113 | `getSP_16` lies in page one, with sp as its low byte |
| CpuEngine.Cpu.GetCarry | src/cpu/cpu.h:115-118 | `getCarry` is bit 0 of the status |
| CpuEngine.Cpu.GetNegative | src/cpu/cpu.h:120-123 | `getNegative` is bit 7 of the status |
| CpuEngine.Cpu.GetOverflow | src/cpu/cpu.h:125-128 | `getOverflow` is bit 6 of the status |
| CpuEngine.Cpu.ResetInterrupt | src/cpu/cpu.cpp:17-21 | the registers become `Reset` of the old registers over the memory |
| CpuEngine.Cpu.ResetState | src/cpu/cpu.cpp:24-30 | the registers become `ResetState` of the old registers |
| CpuEngine.Cpu.Run | src/cpu/cpu.cpp:32-42 | the registers become the ten-step `Run` of the old registers, and the memory is unchanged |
| CpuEngine.Cpu.RunSteps | src/cpu/cpu.cpp:34-39 | the counted loop leaves the registers at the `n`-step `Run`, and the memory is unchanged |
| CpuEngine.Cpu.Cycle | src/cpu/cpu.cpp:36-38 | fetch, execute and `pc++` leave the registers at `Step` of the old registers |
| CpuEngine.Cpu.ExecOpCode | src/cpu/cpu.cpp:45-72 | the switch leaves the registers at `Exec` of the old registers |
| CpuEngine.Cpu.Lda | src/cpu/cpu.cpp:75-80 | the registers become `LoadRegister` into A |
| CpuEngine.Cpu.Ldx | src/cpu/cpu.cpp:83-88 | the registers become `LoadRegister` into X |
| CpuEngine.Cpu.Ldy | src/cpu/cpu.cpp:91-96 | the registers become `LoadRegister` into Y |
| CpuEngine.Cpu.Tax | src/cpu/cpu.cpp:99-103 | the registers become `Tax` of the old registers |
| CpuEngine.Cpu.Inx | src/cpu/cpu.cpp:106-110 | the registers become `Inx` of the old registers |
| CpuEngine.Cpu.UpdateZeroAndNegativeFlag | src/cpu/cpu.cpp:112-125 | only the status changes, to the flag update of the result |
| CpuEngine.Cpu.GetAddress | src/cpu/cpu.cpp:127-142 | returns `GetAddress` of the registers and changes nothing |
| Scenarios.Loaded | src/system.h:13-15 | after the two writes the program sits at $8000 in every cell except the two vector cells, the reset vector holds $8000, and every other cell is unchanged |
| Scenarios.ResetAtProgram | src/system.h:13-16 | after loading, the reset puts pc at $8000 with a, x, y and the status at zero |
| Scenarios.Booted | src/system.h:11-18 | `insertDisk` followed by zero steps leaves pc at $8000 and a, x, y and the status at zero; no number of steps changes sp |
| Scenarios.ImmediateRun | src/cpu/cpu.cpp:75-96 | an immediate load followed by `k` zero bytes: `1 + k` steps load the register and leave pc `2 + k` further on |
| Scenarios.LdaZeroPageRun | src/cpu/cpu.cpp:75-80 | LDA zp followed by `k` zero bytes loads A from the zero page |
| Scenarios.LdaZeroPageXRun | test/cputest.cpp:39-51 | LDX #i; LDA zp,X loads A from zp + i |
| Scenarios.LdxZeroPageYRun | test/cputest.cpp:131-143 | LDY #i; LDX zp,Y loads X from zp + i |
| Scenarios.LdaAbsoluteRun | test/cputest.cpp:53-65 | LDA abs loads A from the address; the address's high byte then runs as an opcode |
| Scenarios.TaxRun | test/cputest.cpp:93-104 | LDA #v; TAX leaves v in A and X |
| Scenarios.InxRun | test/cputest.cpp:106-117 | LDX #v; INX leaves v + 1 modulo 256 in X |
| Scenarios.ImmediateProgram | test/cputest.cpp:12-23 | `insertDisk` of LDA/LDX/LDY #v loads v into that register; the others are zero and the status is the flag update of v |
| Scenarios.LdaZeroPageProgram | test/cputest.cpp:25-37 | `insertDisk` of LDA $05 loads the byte at $05 |
| Scenarios.LdaZeroPageXProgram | test/cputest.cpp:39-51 | `insertDisk` of LDX #$80; LDA $05,X loads the byte at $85 |
| Scenarios.LdaAbsoluteProgram | test/cputest.cpp:53-65 | `insertDisk` of LDA $1234 loads the byte at $1234 |
| Scenarios.TaxProgram | test/cputest.cpp:93-104 | `insertDisk` of LDA #$80; TAX leaves X = $80 and the status $40 |
| Scenarios.InxProgram | test/cputest.cpp:106-117 | `insertDisk` of LDX #$80; INX leaves X = $81 and the status $40 |
| Scenarios.LdxZeroPageYProgram | test/cputest.cpp:131-143 | `insertDisk` of LDY #$80; LDX $05,Y loads the byte at $85 into X |
| Scenarios.LdaImmediateTest | test/cputest.cpp:12-23 | after ten steps A = $40 and the status is 0 |
| Scenarios.LdaZeroPageTest | test/cputest.cpp:25-37 | after ten steps A = 9 |
| Scenarios.LdaZeroPageXTest | test/cputest.cpp:39-51 | after ten steps A = 9 |
| Scenarios.LdaAbsoluteTest | test/cputest.cpp:53-65 | after ten steps A = 9 |
| Scenarios.LdaZeroFlagTest | test/cputest.cpp:67-78 | after ten steps A = 0 and the status is $02 |
| Scenarios.LdaNegativeFlagTest | test/cputest.cpp:80-91 | after ten steps A = $C0 and the status is $40 |
| Scenarios.TaxTest | test/cputest.cpp:93-104 | after ten steps X = $80 and the status is $40 |
| Scenarios.InxTest | test/cputest.cpp:106-117 | after ten steps X = $81 and the status is $40 |
| Scenarios.LdxImmediateTest | test/cputest.cpp:119-129 | after ten steps X = $40 |
| Scenarios.LdxZeroPageYTest | test/cputest.cpp:131-143 | after ten steps X = 9 |
| Scenarios.LdyImmediateTest | test/cputest.cpp:145-155 | after ten steps Y = $40 |
| Scenarios.System.constructor | src/system.h:9 | the memory (0xFFFF cells) and the CPU are freshly allocated, the CPU is wired to that memory, and its constructor left a, x, y and the status at zero |
| Scenarios.System.InsertDisk | src/system.h:11-18 | the memory becomes `Loaded` and the CPU's registers become `Booted`: copy, vector, reset, ten steps |

## Left out

- Console output (`Cpu::print`, the unknown-opcode message, the message before `exit(1)`): I/O only.
- `src/cpu/execution_data.h`: trace formatting, with no execution semantics.
- `src/rom.cpp`, `Bus::insertDisk(Rom*)` and `src/main.cpp`: file I/O and an entry point written against an interface that does not exist. `Bus::readData` is modelled with the PRG bytes as a parameter.
- `src/ppu/data_register.cpp`: `DataRegister::read` has no return statement and nothing calls it. A bus read of $2007 returns the byte stored in the array, as `AddressBus.Load` states. The PPU's `status` field is never written through the bus, and `setOamDma` is never reached from it. Neither is modelled beyond the setter record.
- `getAddress` for ABSOLUTE_X and the later modes falls off the end of the function. These modes are in the datatype, but no opcode reaches them and `AddressDefined` excludes them.
- The functions declared in `cpu.h` without a definition (`adc`, `sta`, the stack operations and the rest): there is nothing to model.
- Initial values: a new `Memory`, the bytes of a new `AddressRegister`, the PPU's registers and the CPU's pc and sp are indeterminate in the C++. The constructors promise nothing about them.
- `exit(1)` in `Bus::read` is an error result, not a process exit. `read_16_zero_page_wrap` only reads the zero page, which never fails.
- A negative `length` passed to a block copy cannot be expressed: the data is a sequence.
- Scenarios.ImmediateProgram: this and the other scenario lemmas assume that the memory is zero after the program, for as many bytes as the ten steps reach. The tests rely on this for a freshly constructed memory, which is indeterminate in the C++.
- Scenarios.System.InsertDisk: requires every one of the ten steps to be defined, i.e. to stay inside the array. The C++ has undefined behaviour otherwise.
- CpuEngine.Cpu.Run: the ten-step loop is written once, as `RunSteps(n)`, and `Run` calls it with ten.
