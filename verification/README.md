# NES emulator core in Dafny

A model of the deterministic core of a small NES emulator written in C++,
together with the Python script its authors use to compare CPU trace logs.
Each part is a set of pure functions over immutable records, with
contracts and lemmas that state what the code promises.

- **6502 CPU** (`cpu.dfy`, `addressing.dfy`, `instructions.dfy`,
  `cpu_properties.dfy`). This covers:
  - the register file and the status flags;
  - the 64 KiB memory and the page-1 stack;
  - the addressing modes and the instruction table;
  - every instruction the table holds;
  - reset and the NMI and IRQ entry sequences.

  The CPU follows the code where it departs from the real 6502:
  - `stack_push16` stores the low byte above the high byte;
  - JSR pushes PC + 2;
  - ROR and LSR compute N before the carry enters bit 7, so N is always 0;
  - NMI jumps to the constant 0xFFFA;
  - a branch reads its offset through the address `Relative` returns;
  - LDA sets no flags.

  The LDA test program of `tests.cpp` is proved to load AA, BB, CC, DD,
  EE, FF, AA and BB in turn.
- **CPU bus** (`bus.dfy`, `bus_properties.dfy`). This covers:
  - address decoding: the 2 KiB RAM mirror, the PPU register mirror, and
    the APU, controller and cartridge windows;
  - the serial controller register at 0x4016;
  - the master clock with its 3:1 CPU rate, NMI forwarding and OAM DMA
    state machine.

  The PPU, APU, cartridge and the CPU's own cycle are collaborators whose
  code is not shown. Every interaction with them is recorded in a call
  log, and the bytes they return come from a record of response
  functions. A whole OAM DMA is proved to copy the 256 bytes of the
  chosen page into OAM, with the CPU stalled throughout.
- **iNES cartridge file** (`rom.dfy`). The file is a byte sequence: a
  16-byte header, then PRG ROM, then CHR ROM. The model covers:
  - header validation;
  - the PRG and CHR size computation;
  - loading;
  - the unchecked PRG and CHR reads.
- **Console** (`nes.dfy`). `load_rom` is modelled as loops:
  - it copies CHR ROM into the pattern table;
  - it places PRG ROM into 0x8000-0xFFFF through bus writes.

  The code chooses between the mirrored NROM-128 placement and the flat
  NROM-256 one by the cartridge's `mirrored` flag, which nothing ever
  sets. The model chooses by PRG size instead (see Findings).

  `initNES` and `end` drive the power switch.
- **Trace-log comparer** (`compare_cycles.dfy`). `compare_cycles.py` is
  a pure function over two sequences of lines. It uses Python's slice and
  `str.strip` semantics and reports the first pair of lines that differs.
- **Bounds-checked test memory** (`test_memory.dfy`). This is the
  `store`/`retrieve` pair of `cpu_test.c`.

Bytes and words are integer subset types. The source's 8-bit, 16-bit
and 32-bit wrap-around is written out explicitly (`Wrap8`, `Wrap16`,
`Tick32`). The status register is a `bv8`.

## Model

| member | source | states |
|---|---|---|
| Cpu.SetFlag | CPU.cpp:53-63 | after setting or clearing a flag, `getFlag` reads it as 1 or 0 accordingly, and the seven other flags read as before |
| Cpu.WriteMemory | CPU.cpp:37-50 | a write is read back at its address, and every other address reads as before |
| Cpu.WordBytes | CPU.cpp:85-88 | a word built as `hi << 8 \| lo` splits back into the same low and high bytes |
| Cpu.Push | CPU.cpp:659-663 | S drops by one (mod 256), the value lands at 0x0100 + the new S, nothing else in memory changes, and the registers keep their values |
| Cpu.Push16 | CPU.cpp:666-675 | S drops by two; the low byte goes to 0x0100 + (S − 1) and the high byte one below it, which is 0x00FF (outside page 1) when S was 1; no other cell changes |
| Cpu.Pop | CPU.cpp:678-683 | the byte returned is the one at 0x0100 + S; only S changes, rising by one (mod 256) |
| Cpu.Reset | CPU.cpp:84-93 | PC is the little-endian word at 0xFFFC/0xFFFD, S = 0xFD and P = 0x24, whatever the previous registers were; A, X, Y and memory are unchanged |
| Cpu.Nmi | CPU.cpp:686-691 | S drops by 3; PC and then the old P are pushed, the high byte of PC landing at 0x00FF when S is 1; no other memory cell changes; I is set and every other flag kept; PC becomes the constant 0xFFFA |
| Cpu.Irq | CPU.cpp:694-708 | nothing changes while I is set; otherwise S drops by 3, PC is pushed as by `stack_push16` (its high byte at 0x00FF when S is 1), I is set and B cleared with every other flag kept, that new P is pushed, no other memory cell changes, and PC is loaded from 0xFFFE/0xFFFF |
| Addressing.Signed | CPU.cpp:569 | the `int8_t` reading of a byte lies in −128..127 and is congruent to the byte mod 256 |
| Addressing.ImmediateMode | CPU.cpp:556-558 | the effective address is the old PC, and PC advances by 1 |
| Addressing.RelativeMode | CPU.cpp:567-571 | PC advances by 1, and the address is the new PC plus the signed offset byte, mod 2^16 |
| Addressing.ZeroPageMode | CPU.cpp:574-576 | the address is the byte at PC, so it is below 0x100; PC advances by 1 |
| Addressing.ZeroPageIndexed | CPU.cpp:579-586 | the address is the byte at PC plus the index, wrapped to the zero page; PC advances by 1 |
| Addressing.AbsoluteIndexed | CPU.cpp:589-607 | the address minus the index is the little-endian word after the opcode (mod 2^16); PC advances by 2 |
| Addressing.IndirectMode | CPU.cpp:609-617 | the address is the little-endian word stored at the pointer that follows the opcode, its second byte read at pointer + 1 mod 2^16; PC advances by 2. `IndirectJMP` (CPU.cpp:634-647) computes the same word and is resolved by this member too |
| Addressing.IndirectXMode | CPU.cpp:620-624 | the pointer is (operand + X) & 0xFF, and the address is the word stored at pointer and pointer + 1; PC advances by 1 |
| Addressing.IndirectYMode | CPU.cpp:627-631 | the address minus Y is the word stored at the zero-page operand and the byte after it; PC advances by 1 |
| Addressing.Resolve | CPU.cpp:551-651 | Implicit and Accumulator give the marker 0xFFFF and Implied gives 0; each mode advances PC by its operand length; the zero-page modes stay below 0x100 |
| Instructions.Lda | CPU.cpp:304-307 | A becomes the byte at the address, and nothing else changes, flags included |
| Instructions.Jsr | CPU.cpp:213-217 | PC + 2 is pushed with its low byte above its high byte, the high byte landing at 0x00FF when S is 1, and no other memory cell changes; PC becomes the target; A, X, Y and P are unchanged |
| Instructions.Rts | CPU.cpp:220-226 | S rises by 2, and PC − 1 is the word whose high byte is the first byte popped; nothing else changes |
| Instructions.Brk | CPU.cpp:229-244 | the low byte of PC + 2 lands at 0x0100 + (S − 1), its high byte one below (0x00FF when S was 1), then P with B set on top; no other memory cell changes; I is set, B cleared and every other flag kept; PC is loaded from 0xFFFE/0xFFFF; A, X and Y are unchanged |
| Instructions.Rti | CPU.cpp:247-258 | S rises by 3; P is the popped status with B cleared and U set; PC is the word popped high byte first; memory is unchanged |
| Instructions.Pla | CPU.cpp:268-272 | A is the popped byte and S rises by one; Z and N follow A; the other flags, X, Y, PC and memory are kept |
| Instructions.Php | CPU.cpp:275-280 | P with B and U set is pushed and no other memory cell changes; afterwards B is clear, U is set and the other flags are kept; A, X, Y and PC are unchanged |
| Instructions.Plp | CPU.cpp:283-287 | P is the popped status with U set and B cleared, S rises by one, and A, X, Y, PC and memory are unchanged |
| Instructions.Branch | CPU.cpp:315-376 | a branch not taken changes nothing; a taken one sets PC to PC + 2 + the signed byte at the operand address, mod 2^16, and changes nothing else |
| Instructions.Asl | CPU.cpp:395-417 | 2·value = result + 256·C; N is bit 7 of the result; Z holds iff the result is 0; address 0xFFFF means A; the other flags, X, Y, S and PC are kept, and so is all memory for A and every other cell (and A) for a memory operand |
| Instructions.Lsr | CPU.cpp:420-440 | value = 2·result + C; N is always 0; Z holds iff the result is 0; the other flags, X, Y, S and PC are kept, and so is all memory for A and every other cell (and A) for a memory operand |
| Instructions.Rol | CPU.cpp:443-466 | 2·value + old C = result + 256·new C; N is bit 7 of the result; Z holds iff the result is 0; the other flags, X, Y, S and PC are kept, and so is all memory for A and every other cell (and A) for a memory operand |
| Instructions.Ror | CPU.cpp:469-492 | value + 256·old C = 2·result + new C; N is always 0 because it is taken before the carry enters; Z holds iff the result is 0; the other flags, X, Y, S and PC are kept, and so is all memory for A and every other cell (and A) for a memory operand |
| Instructions.Compare | CPU.cpp:497-524 | C holds iff register ≥ operand, Z iff they are equal, and N is bit 7 of (register − operand) mod 256; no register or memory changes |
| Instructions.PerformFrame | CPU.cpp:204-545 | every instruction keeps X and Y; PC, S, memory, A and P change only for the instructions of the kind that changes each |
| Instructions.RunFrame | CPU.cpp:106-111 | running a table entry (its addressing mode, then its operation on the resolved address) keeps the frame of the operation, counted from the PC the addressing mode leaves |
| Instructions.OperandPc | CPU.cpp:548-651 | after the opcode fetch, the addressing mode leaves PC at opcode address + 1 + operand length, modulo 2^16 |
| Instructions.ResolveLength | CPU.cpp:548-651 | each addressing mode advances PC by exactly its operand length (0, 1 or 2 bytes) |
| Instructions.StepFrame | CPU.cpp:96-199 | for every opcode at once: an empty table slot fails; otherwise X and Y are kept, PC moves past the opcode and its operand unless the instruction sets PC itself, and S, memory, A and P are kept by every instruction that does not use the stack, store, load A or set flags |
| CpuProperties.PushThenPop | CPU.cpp:659-683 | a pop after a push returns the pushed byte and restores S |
| CpuProperties.Push16ThenPopTwice | CPU.cpp:666-683 | when S ≠ 1, two pops after `stack_push16(v)` return the high byte and then the low byte of v, and S is restored |
| CpuProperties.Push16AtPageBottom | CPU.cpp:666-675 | at S = 1 the high byte lands at 0x00FF, S wraps to 0xFF, and the next pop reads 0x01FF instead |
| CpuProperties.JsrThenRts | CPU.cpp:213-226 | JSR followed by RTS restores S and leaves PC = PC at the JSR + 3, mod 2^16 |
| CpuProperties.BrkThenRti | CPU.cpp:229-258 | BRK followed by RTI restores S, leaves PC = old PC + 2, and restores P with B cleared and U set |
| CpuProperties.NmiThenRti | CPU.cpp:247-258 | RTI after an NMI entry restores S and PC, and P with B cleared and U set |
| CpuProperties.IrqThenRti | CPU.cpp:247-258 | RTI after an IRQ entry with I clear restores S and PC; the popped P has I set, because the code pushes P after setting I |
| CpuProperties.PhaThenPla | CPU.cpp:262-272 | PHA then PLA gives A back, restores S, and sets Z and N from A |
| CpuProperties.PhpThenPlp | CPU.cpp:275-287 | PHP then PLP restores S and gives P back with B cleared and U set |
| CpuProperties.RolThenRor | CPU.cpp:443-492 | ROL then ROR on the same operand restores both the operand and C |
| CpuProperties.RorThenRol | CPU.cpp:443-492 | ROR then ROL on the same operand restores both the operand and C |
| CpuProperties.AslThenLsr | CPU.cpp:395-440 | ASL then LSR clears bit 7 of the operand and leaves C clear |
| CpuProperties.BranchPairsExclusive | CPU.cpp:315-376 | for any status, exactly one branch of each pair BEQ/BNE, BCS/BCC, BMI/BPL and BVS/BVC is taken |
| CpuProperties.ExecuteTakenBeq | CPU.cpp:315-319 | a taken BEQ moves PC by 4 plus the signed byte read through the Relative address, mod 2^16 |
| CpuProperties.ExecuteLda | CPU.cpp:131-138 | every LDA opcode loads A from the resolved address and moves PC past the operand, changing nothing else |
| CpuProperties.LdaImmediateStep | CPU.cpp:131 | opcode 0xA9 loads the byte after it and advances PC by 2 |
| CpuProperties.LdaZeroPageStep | CPU.cpp:132 | opcode 0xA5 loads from the zero-page operand |
| CpuProperties.LdaZeroPageXStep | CPU.cpp:133 | opcode 0xB5 loads from (operand + X) & 0xFF |
| CpuProperties.LdaAbsoluteStep | CPU.cpp:134-136 | opcodes 0xAD, 0xBD and 0xB9 load from the operand word plus 0, X or Y, and advance PC by 3 |
| CpuProperties.LdaIndirectXStep | CPU.cpp:137 | opcode 0xA1 loads through the zero-page pointer (operand + X) & 0xFF |
| CpuProperties.LdaIndirectYStep | CPU.cpp:138 | opcode 0xB1 loads through the zero-page pointer, plus Y |
| CpuProperties.LdaProgramImage | tests.cpp:37-64 | the memory image the test writes holds the LDA program and its data |
| CpuProperties.LdaProgramLoads | tests.cpp:66-86 | with X = 3 and Y = 2, eight successive executes load AA, BB, CC, DD, EE, FF, AA, BB |
| CpuProperties.ResetScenario | tests.cpp:119-147 | after scrambling flags, PC and S, reset gives P = 0x24, S = 0xFD and PC = 0xC2A9 |
| CpuProperties.StackScenario | tests.cpp:93-116 | the push/pop and push16/pop/pop sequence of the stack test gives BC, AB, CD and restores S |
| CpuProperties.InterruptScenarios | tests.cpp:150-189 | NMI and IRQ from power-on lower S by 3, NMI jumps to 0xFFFA, and IRQ is ignored while I is set |
| Bus.RouteDecodes | Bus.cpp:17-66 | each target owns exactly its range of the memory map; RAM gets index address & 0x07FF and PPU registers address & 0x0007 |
| Bus.WriteEffects | Bus.cpp:17-37 | RAM writes store at address & 0x07FF; 0x4014 starts DMA from page `data` at address 0; 0x4016 and 0x4018-0x401F change nothing; 0x2000-0x3FFF logs `ppu.cpuWrite(address & 7, data)`, the APU registers log `write_register(address, data)` and 0x4020 up logs `writerom(address, data)`, each changing nothing else |
| Bus.ReadEffects | Bus.cpp:39-66 | reads other than 0x4016 have no bus side effect beyond logging; RAM reads see the mirrored cell; 0x2000-0x3FFF returns and logs `ppu.cpuRead(address & 7)`, the APU registers `read_register(address)` and 0x4020 up `readrom(address)`; 0x4014 and 0x4018-0x401F return 0xFF |
| Bus.ControllerRead | Bus.cpp:49-57 | after eight reads the shadow re-latches from controller1; each read returns bit 0 and shifts the shadow right |
| Bus.DmaTick | Bus.cpp:83-106 | a DMA tick touches neither RAM, the page, the controller nor either clock counter |
| Bus.CpuRateWork | Bus.cpp:80-113 | work happens only when clockCounter % 3 == 0: the CPU steps once and cpuClockCounter rises, unless DMA is active, which stalls it |
| Bus.Clock | Bus.cpp:75-122 | clockCounter rises by exactly one (mod 2^32); cpuClockCounter rises only on a CPU step; off-phase clocks change nothing but the log |
| Bus.ClockLog | Bus.cpp:75-122 | every clock steps the PPU first, forwards a pending NMI exactly once, and steps the CPU at most once |
| Bus.DmaTickLog | Bus.cpp:83-106 | a DMA tick never steps the CPU or raises an NMI |
| Bus.Run | Bus.cpp:75-122 | repeated clocks leave RAM and the controller untouched (given CPU steps that never access the bus) and advance clockCounter by the number of clocks |
| BusProperties.RamMirror | Bus.cpp:19-41 | a byte written to RAM is read back at every address congruent to it mod 0x800 |
| BusProperties.RamWriteIsolated | Bus.cpp:19-41 | a RAM write leaves every other mirrored cell unchanged |
| BusProperties.DmaStartLeavesRam | Bus.cpp:25-29 | writing 0x4014 starts DMA from page `data` at offset 0 and touches no RAM |
| BusProperties.ControllerDrain | Bus.cpp:49-57 | the reads left in a group return the shadow's bits, LSB first |
| BusProperties.ControllerGroup | Bus.cpp:49-57 | a group of eight reads returns the latched controller byte LSB first, and its bits reassemble into that byte |
| BusProperties.IdleClocks | Bus.cpp:75-122 | the two clocks between CPU-rate clocks change nothing but the counter and the log |
| BusProperties.DmaThreeClocks | Bus.cpp:75-122 | during DMA, three clocks perform exactly one DMA tick |
| BusProperties.DmaReadPhase | Bus.cpp:89-93 | on an even CPU-rate clock DMA latches the byte at (page << 8) \| address |
| BusProperties.DmaWritePhase | Bus.cpp:94-104 | on an odd CPU-rate clock DMA stores the latched byte in OAM and advances the address |
| BusProperties.DmaByte | Bus.cpp:84-104 | six clocks copy one byte from the page into OAM, advance the address, and stall the CPU |
| BusProperties.DmaRest | Bus.cpp:84-104 | from any address, the remaining clocks copy the rest of the page and then clear DMATransfer and DMACanStart |
| BusProperties.DmaWait | Bus.cpp:84-88 | DMA waits for an odd CPU-rate clock before it can start |
| BusProperties.DmaArm | Bus.cpp:84-88 | an odd clock arms a waiting DMA |
| BusProperties.DmaSkip | Bus.cpp:84-88 | an even clock leaves a waiting DMA waiting |
| BusProperties.DmaCopiesPage | Bus.cpp:25-104 | after 0x4014 is written, DMA copies OAM[i] = read(page << 8 \| i) for all 256 i, then ends, with RAM and cpuClockCounter untouched |
| Rom.EncodeHeader | ROM.cpp:9-19 | the header occupies 16 bytes, magic first, then the PRG and CHR unit counts |
| Rom.ParseHeader | ROM.cpp:34-36 | the header is the first 16 bytes of the file, field by field |
| Rom.ParseEncode | ROM.cpp:9-36 | parsing an encoded header gives it back |
| Rom.ValidHeaderIsMagic | ROM.cpp:70-76 | a header is valid iff bytes 0-3 are 'N', 'E', 'S', 0x1A; bytes 4-15 do not matter |
| Rom.PrgSize | ROM.cpp:43 | the PRG size is a whole number of 16 KiB units, prgRomSize of them |
| Rom.ChrSize | ROM.cpp:44 | the CHR size is a whole number of 8 KiB units, chrRomSize of them |
| Rom.DetectMapper | ROM.h:30-33 | the cartridge is marked mirrored exactly when its PRG ROM is one 16 KiB bank, and its data is kept |
| Rom.Load | ROM.cpp:27-60 | load succeeds iff the file opens and its header is valid; on failure nothing changes; PRG takes the announced size; CHR is replaced only when chrRomSize > 0 |
| Rom.LoadEncode | ROM.cpp:42-54 | loading header + PRG + CHR (+ any trailer) returns exactly that PRG and CHR |
| Rom.LoadRejectsInvalid | ROM.cpp:37-40 | a wrong magic number fails the load and leaves the ROM object untouched |
| Rom.LoadThenRead | ROM.cpp:62-68 | after a load, PRG address i reads file byte 16 + i and CHR address i reads the byte i past the PRG data |
| Nes.CartridgeWriteLogs | Bus.cpp:32-35 | a bus write at 0x8000 or above is handed to the cartridge and changes nothing else on the bus |
| Nes.MirroredHalvesAgree | NES.cpp:17-23 | under NROM-128, address a and a + 0x4000 hold the same PRG byte |
| Nes.MirroringIsRepetition | NES.cpp:17-29 | mirroring a 16 KiB bank maps the same bytes as a flat 32 KiB image holding the bank twice |
| Nes.CopyPatternTable | NES.cpp:11-13 | the pattern table ends up equal to the first 8 KiB of CHR ROM |
| Nes.PlaceUnmirrored | NES.cpp:24-29 | every address a in 0x8000-0xFFFF receives prgRom[a − 0x8000]; lower addresses and the rest of the bus are untouched |
| Nes.PlaceMirrored | NES.cpp:17-23 | every address a in 0x8000-0xFFFF receives prgRom[(a − 0x8000) mod 0x4000]; lower addresses and the rest of the bus are untouched |
| Nes.LoadRom | NES.cpp:4-31 | nothing changes while on; otherwise rom_loaded is set even if the load failed, the pattern table is CHR ROM, the CPU registers are kept, and the window holds the NROM placement of PRG ROM for the board chosen by its size |
| Nes.SmallPrgOverruns | NES.cpp:17-29 | as written, a file with one 16 KiB PRG bank loads unmirrored, so the flat loop needs 32 KiB from a 16 KiB buffer |
| Nes.DetectedBoardFits | NES.cpp:17-29 | with the board chosen from the PRG size, every file with one or two PRG banks and some CHR fits, and address a maps file byte 16 + (a − 0x8000) mod PRG size |
| Nes.InitNes | NES.cpp:33-49 | already on, nothing changes; otherwise the CPU gets a reset (PC from the vector, S = 0xFD, P = 0x24) and the console is on |
| Nes.End | NES.cpp:94-96 | the console is off and nothing else changes |
| Nes.InitNesIdempotent | NES.cpp:35-38 | initialising twice is initialising once |
| Nes.EndThenInit | NES.cpp:33-96 | `end` then `initNES` always performs a fresh CPU reset |
| Nes.RestartResets | NES.cpp:33-96 | restarting a running console gives the reset registers and keeps memory, bus and cartridge |
| CompareCycles.Drop | compare_cycles.py:8 | `s[n:]` is the suffix from n, or empty when n is past the end |
| CompareCycles.Take | compare_cycles.py:9 | `s[:n]` is a prefix of at most n characters, the whole string when shorter |
| CompareCycles.StripLeft | compare_cycles.py:10 | lstrip removes exactly the leading whitespace |
| CompareCycles.StripRight | compare_cycles.py:10 | rstrip removes exactly the trailing whitespace |
| CompareCycles.StripShape | compare_cycles.py:10 | strip returns a slice of its input that neither starts nor ends with whitespace and has only whitespace around it |
| CompareCycles.StripUnique | compare_cycles.py:10 | whatever whitespace surrounds a trimmed string, strip returns exactly that string |
| CompareCycles.StripIdempotent | compare_cycles.py:10 | stripping twice is stripping once |
| CompareCycles.FirstDivergence | compare_cycles.py:6-11 | the scan returns the smallest differing index at or after its start, or None when every remaining pair agrees |
| CompareCycles.Compare | compare_cycles.py:6-11 | there is a report iff some pair within the shorter file differs; it names the smallest such pair, with A's line[:4] and A's line[9:] stripped |
| CompareCycles.Output | compare_cycles.py:4-11 | the first output line is the working directory; there is nothing more iff no pair differs; otherwise, for the first differing line k, the next lines are `Difference found in line '` + A[k][:4] + `'` and `   Incorrect cycles: ` + A[k][9:].strip() |
| CompareCycles.ReportShape | compare_cycles.py:9-10 | the label has at most four characters; the remainder has no surrounding whitespace and strips to itself |
| CompareCycles.CompareFindsFirst | compare_cycles.py:6-11 | the report is the one about the first differing pair, however that pair is found |
| CompareCycles.ExtraLinesIgnored | compare_cycles.py:6 | lines of the longer file beyond the shorter one do not affect the result |
| CompareCycles.LaterLinesIgnored | compare_cycles.py:8-11 | lines after the first difference, in either file, do not affect the result |
| CompareCycles.AgreeingLogsPrintOnlyCwd | compare_cycles.py:4-11 | when every compared pair agrees, only the working directory is printed |
| CompareCycles.ReportExample | compare_cycles.py:8-10 | the line `1234Program: COUNTER=7\n` against a differing reference line prints label `1234` and remainder `am: COUNTER=7` |
| CompareCycles.ShortLinesAgree | compare_cycles.py:8 | lines shorter than their offsets compare as empty strings, without error |
| TestMemory.Store | cpu_test.c:10-16 | an in-range store sets exactly that cell; an out-of-range store changes nothing |
| TestMemory.Retrieve | cpu_test.c:19-26 | an out-of-range retrieve returns 0xFF, the `uint8_t` value of −1 |
| TestMemory.StoreThenRetrieve | cpu_test.c:10-26 | retrieve after store returns the stored byte at that in-range address, the old byte elsewhere, and 0xFF out of range |
| TestMemory.StoresCommute | cpu_test.c:10-16 | stores to distinct addresses commute |
| TestMemory.StoreRetrieved | cpu_test.c:10-26 | storing the byte already retrieved from an address changes nothing |
| TestMemory.MainExample | cpu_test.c:42-47 | storing 0xAB at address 0 of the zeroed memory reads back 0xAB, and no other cell changes |

## Left out

- User interface. The SDL/OpenGL/ImGui front end and its floating-point scaling are not modelled.
- `NES::run`, `NES::cycle`, `RandomizeFramebuffer` and `getFramebuffer`. These are wall-clock loops, console printing, `rand()` and raw pointers.
- File and console I/O. An open failure becomes `None`, and the file becomes a byte sequence. `printRegisters`, `printMemory`, `printHeaderInfo`, `print_mem`, the stderr messages and `print(os.getcwd())` are not modelled; the working directory is a parameter.
- PPU, APU and CPU collaborators of the bus. `ppu.clock`, `cpuRead`/`cpuWrite`, `apu->read_register`/`write_register`, `cpu->cycleExecute`, `cpu->writerom`/`readrom` and `nmi_interrupt` are entries in the call log. Their answers come from `Devices`. `ppu.nmi` becomes one boolean per clock.
- `connectROM` and `connectBus`. They only wire pointers.
- `decodePatternTable`. Its code is not part of this model.
- `writePatternTable`. It is taken to store the byte at its index.
- `Bus::reset`. It only forwards to the collaborators.
- PPU.cpp, APU.cpp, CPU.h, PPU.h and APU.h. They are not part of this model. Bus.h is out of sync with Bus.cpp, so the fields follow Bus.cpp.
- Bus.cpp:59. The `return 0` there is unreachable, because 0x4017 is routed to the APU first.
- CPU `readMemory`/`writeMemory`. The out-of-range branches cannot be reached with a 16-bit address into a 64 KiB array, so they are not modelled.
- ROM.h `detect_mapper`. It has no definition, and `mirrored` is a field that `load` never sets. `Rom.DetectMapper` supplies the board choice (see Findings).
- Instructions.Execute: requires a populated table entry, because an empty entry calls through a null member pointer. `Step` returns `None` for such an opcode. Its properties are stated by `StepFrame`.
- Rom.Load: requires a complete file (a full header and all the ROM data it announces), because short reads go unchecked.
- Nes.LoadRom: requires at least 8 KiB of CHR and 16 KiB (mirrored) or 32 KiB (flat) of PRG after loading, because the copy loops read that much unchecked. A cartridge write is observed as the latest write in the bus log to that address, not as cartridge memory.
- Nes.LoadRom: states nothing about CPU memory after loading. The PRG bytes go to `cpu->writerom`, whose code is not part of this model, so `InitNes` after `LoadRom` is not shown to read the cartridge's reset vector.
- Bus.Run: states the clock counter only when it does not wrap past 2^32. The wrap itself is modelled by `Tick32`.
- Bus.Run: its RAM and controller clause assumes that a CPU step never reads or writes through the bus. `cpu->cycleExecute` is the logged call `CpuStep`, and the CPU it drives works on its own 64 KiB memory. A CPU that did use its `Bus*` could write RAM, start DMA through 0x4014 or shift the controller through 0x4016 during a step.
- Bus.Clock: its `r.ram == b.ram` and controller clause rest on the same assumption that a CPU step never accesses the bus.
- Bus.CpuRateWork: its exact post-state for a CPU step (only the log and cpuClockCounter change) rests on the same assumption that a CPU step never accesses the bus.
- BusProperties.DmaCopiesPage: proved only for pages other than 0x40 and without a clock-counter wrap. Page 0x40 would read 0x4016, whose controller reads have side effects.
- BusProperties.DmaRest: carries the same page and counter restrictions as DmaCopiesPage.
- CompareCycles.StripLeft: treats only ASCII characters as whitespace, while Python's `str.strip` also removes Unicode spaces.
- CompareCycles.StripRight: has the same ASCII-only limit.
- CompareCycles.Compare: follows the code, which counts lines from 1 but never prints the line number. The report shows only A's first four characters. For `1234Program: COUNTER=7` the remainder is `am: COUNTER=7`, the characters from index 9 on.

## Findings

| source | as written | input that shows it | evidently intended | confidence | as-written member | corrected member |
|---|---|---|---|---|---|---|
| NES.cpp:17-29, ROM.h:30, ROM.cpp:27-60 | `load` never sets `mirrored` (its default is false, and `detect_mapper` is never defined), so `load_rom` always takes the NROM-256 branch and copies 32 KiB of PRG | a valid iNES file whose header byte 4 is 1 (one 16 KiB PRG bank, an NROM-128 game): `load` allocates 16 KiB, and the loop reads `prgRom[0x4000..0x7FFF]` past its end | NROM-128 mirroring for a 16 KiB PRG ROM, as the flag's comment and the branch comments say | high; not executed | Nes.SmallPrgOverruns | Nes.DetectedBoardFits |
