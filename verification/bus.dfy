/**
  The CPU bus of Bus.cpp: address decoding with the 2 KiB RAM mirror, the
  PPU register mirror, the APU and cartridge windows, the serial
  controller port at 0x4016, and the master clock with its OAM DMA state
  machine.

  The PPU, APU, cartridge and the CPU's own cycle are collaborators whose
  code is not part of this model. Every interaction with them is appended
  to a call log, and the bytes they answer on a read come from `Devices`,
  a record of pure response functions.
*/
module Bus {
  import opened Cpu

  /** `uint32_t clockCounter`. */
  type Uint32 = n: int | 0 <= n < 0x1_0000_0000

  /** `std::array<uint8_t, 2 * 1024> cpuRam`. */
  type Ram = s: seq<Byte> | |s| == 0x800 witness seq(0x800, _ => 0)

  /** The PPU's 256-byte object attribute memory, the target of OAM DMA. */
  type Oam = s: seq<Byte> | |s| == 0x100 witness seq(0x100, _ => 0)

  /** Where a CPU address is decoded to. */
  datatype Target =
    | RamCell(index: nat)          // 0x0000-0x1FFF, mirrored every 0x800
    | PpuRegister(register: nat)   // 0x2000-0x3FFF, mirrored every 8
    | ApuRegister                  // 0x4000-0x4013, 0x4015, 0x4017
    | OamDma                       // 0x4014
    | ControllerPort               // 0x4016
    | Unmapped                     // 0x4018-0x401F
    | Cartridge                    // 0x4020-0xFFFF

  /** An interaction with a collaborator, in the order it happens. */
  datatype Call =
    | PpuClock
    | PpuRead(register: nat)
    | PpuWrite(register: nat, data: Byte)
    | ApuRead(address: Word)
    | ApuWrite(address: Word, data: Byte)
    | CartridgeRead(address: Word)
    | CartridgeWrite(address: Word, data: Byte)
    | CpuStep     // cpu->cycleExecute(); taken never to access the bus
    | CpuNmi

  /** The bytes the collaborators answer on a read. */
  datatype Devices = Devices(ppuRead: nat -> Byte, apuRead: Word -> Byte, cartridgeRead: Word -> Byte)

  /** The bus fields Bus.cpp uses: RAM, OAM (held by the PPU in the source),
      the controller latch and its shadow copy with the read count, the DMA
      registers, both clock counters and the call log. */
  datatype BusState = BusState(
    ram: Ram,
    oam: Oam,
    controller1: Byte,
    shadow: Byte,
    controllerReads: nat,
    dmaTransfer: bool,
    dmaCanStart: bool,
    dmaPage: Byte,
    dmaAddress: Byte,
    dmaData: Byte,
    clockCounter: Uint32,
    cpuClockCounter: nat,
    calls: seq<Call>)

  // ------------------------------------------------------------ Address decoding

  /** The if-chain shared by read and write. `address & 0x07FF` and
      `address & 0x0007` are the remainders modulo 0x800 and 8. */
  function Route(address: Word): Target
  {
    if address <= 0x1FFF then RamCell(address % 0x800)
    else if address <= 0x3FFF then PpuRegister(address % 8)
    else if address <= 0x4013 || address == 0x4015 || address == 0x4017 then ApuRegister
    else if address == 0x4014 then OamDma
    else if address == 0x4016 then ControllerPort
    else if address <= 0x401F then Unmapped
    else Cartridge
  }

  /** Each target owns exactly the address range of the memory map, and the
      RAM and PPU targets carry the mirrored index. */
  lemma RouteDecodes(address: Word)
    ensures var t := Route(address);
            && (t.RamCell? <==> address <= 0x1FFF)
            && (t.RamCell? ==> t.index == address % 0x800 && t.index < 0x800)
            && (t.PpuRegister? <==> 0x2000 <= address <= 0x3FFF)
            && (t.PpuRegister? ==> t.register == address % 8 && t.register < 8)
            && (t == ApuRegister <==> (0x4000 <= address <= 0x4013 || address == 0x4015 || address == 0x4017))
            && (t == OamDma <==> address == 0x4014)
            && (t == ControllerPort <==> address == 0x4016)
            && (t == Unmapped <==> 0x4018 <= address <= 0x401F)
            && (t == Cartridge <==> address >= 0x4020)
  {
  }

  // ------------------------------------------------------------ Write

  /** Bus::write. A write to 0x4014 starts OAM DMA from page `data`;
      writes to the controller port and to 0x4018-0x401F are ignored. */
  function Write(b: BusState, address: Word, data: Byte): BusState
  {
    match Route(address)
    case RamCell(i) => b.(ram := b.ram[i := data])
    case PpuRegister(register) => b.(calls := b.calls + [PpuWrite(register, data)])
    case ApuRegister => b.(calls := b.calls + [ApuWrite(address, data)])
    case OamDma => b.(dmaTransfer := true, dmaPage := data, dmaAddress := 0)
    case ControllerPort => b
    case Unmapped => b
    case Cartridge => b.(calls := b.calls + [CartridgeWrite(address, data)])
  }

  /** A write stores into the mirrored RAM cell, starts DMA at 0x4014, is
      dropped at 0x4016 and 0x4018-0x401F, and is otherwise forwarded to a
      collaborator with the bus state unchanged apart from the log. */
  lemma WriteEffects(b: BusState, address: Word, data: Byte)
    ensures var r := Write(b, address, data);
            && (address <= 0x1FFF ==> r == b.(ram := b.ram[address % 0x800 := data]))
            && (address == 0x4014 ==> r == b.(dmaTransfer := true, dmaPage := data, dmaAddress := 0))
            && (address == 0x4016 || 0x4018 <= address <= 0x401F ==> r == b)
            && (0x2000 <= address <= 0x3FFF ==> r == b.(calls := b.calls + [PpuWrite(address % 8, data)]))
            && ((0x4000 <= address <= 0x4013 || address == 0x4015 || address == 0x4017) ==>
                  r == b.(calls := b.calls + [ApuWrite(address, data)]))
            && (address >= 0x4020 ==> r == b.(calls := b.calls + [CartridgeWrite(address, data)]))
  {
  }

  // ------------------------------------------------------------ Read

  /** The byte a read of a side-effect-free address returns: RAM, a
      collaborator's answer, or 0xFF (the `return -1` fall-through). */
  function Peek(ram: Ram, dev: Devices, address: Word): Byte
    requires Route(address) != ControllerPort
  {
    match Route(address)
    case RamCell(i) => ram[i]
    case PpuRegister(register) => dev.ppuRead(register)
    case ApuRegister => dev.apuRead(address)
    case OamDma => 0xFF
    case Unmapped => 0xFF
    case Cartridge => dev.cartridgeRead(address)
  }

  /** A read of 0x4016: after every eight reads the shadow is re-latched
      from controller1; each read returns bit 0 of the shadow and shifts it
      right. */
  function ControllerRead(b: BusState): (r: (Byte, BusState))
    ensures r.0 < 2
    ensures b.controllerReads == 8 ==>
              r.0 == b.controller1 % 2 && r.1 == b.(shadow := b.controller1 / 2, controllerReads := 1)
    ensures b.controllerReads != 8 ==>
              r.0 == b.shadow % 2 && r.1 == b.(shadow := b.shadow / 2, controllerReads := b.controllerReads + 1)
  {
    var latched := if b.controllerReads == 8 then b.(shadow := b.controller1, controllerReads := 0) else b;
    (latched.shadow % 2, latched.(shadow := latched.shadow / 2, controllerReads := latched.controllerReads + 1))
  }

  /** Bus::read. Only the controller port has a side effect on the bus
      itself; collaborator reads are logged. */
  function Read(b: BusState, dev: Devices, address: Word): (Byte, BusState)
  {
    match Route(address)
    case RamCell(i) => (b.ram[i], b)
    case PpuRegister(register) => (dev.ppuRead(register), b.(calls := b.calls + [PpuRead(register)]))
    case ApuRegister => (dev.apuRead(address), b.(calls := b.calls + [ApuRead(address)]))
    case OamDma => (0xFF, b)
    case ControllerPort => ControllerRead(b)
    case Unmapped => (0xFF, b)
    case Cartridge => (dev.cartridgeRead(address), b.(calls := b.calls + [CartridgeRead(address)]))
  }

  /** A read returns the side-effect-free answer and only logs, except at
      the controller port; RAM reads see the mirrored cell. */
  lemma ReadEffects(b: BusState, dev: Devices, address: Word)
    ensures var r := Read(b, dev, address);
            && (Route(address) != ControllerPort ==>
                  && r.0 == Peek(b.ram, dev, address)
                  && r.1.(calls := b.calls) == b
                  && b.calls <= r.1.calls)
            && (address <= 0x1FFF ==> r.0 == b.ram[address % 0x800] && r.1 == b)
            && (0x2000 <= address <= 0x3FFF ==>
                  r == (dev.ppuRead(address % 8), b.(calls := b.calls + [PpuRead(address % 8)])))
            && ((0x4000 <= address <= 0x4013 || address == 0x4015 || address == 0x4017) ==>
                  r == (dev.apuRead(address), b.(calls := b.calls + [ApuRead(address)])))
            && (address >= 0x4020 ==> r == (dev.cartridgeRead(address), b.(calls := b.calls + [CartridgeRead(address)])))
            && (address == 0x4014 || 0x4018 <= address <= 0x401F ==> r == (0xFF, b))
            && (address == 0x4016 ==> r == ControllerRead(b))
  {
  }

  // ------------------------------------------------------------ Clock

  /** The address DMA copies next: `DMAPage << 8 | DMAAddress`. */
  function DmaSource(b: BusState): Word
  {
    b.dmaPage * 0x100 + b.dmaAddress
  }

  /** One CPU-rate tick of an active DMA transfer. The first odd tick lets
      the transfer start; then even ticks read a byte and odd ticks store it
      into OAM and advance the address, ending the transfer when the 8-bit
      address wraps back to 0. */
  function DmaTick(b: BusState, dev: Devices): (r: BusState)
    ensures r.ram == b.ram && r.dmaPage == b.dmaPage && r.clockCounter == b.clockCounter
    ensures r.cpuClockCounter == b.cpuClockCounter && r.controller1 == b.controller1
  {
    if !b.dmaCanStart then
      if b.clockCounter % 2 == 1 then b.(dmaCanStart := true) else b
    else if b.clockCounter % 2 == 0 then
      var (data, after) := Read(b, dev, DmaSource(b));
      after.(dmaData := data)
    else
      var address := Wrap8(b.dmaAddress + 1);
      var stored := b.(oam := b.oam[b.dmaAddress := b.dmaData], dmaAddress := address);
      if address == 0 then stored.(dmaTransfer := false, dmaCanStart := false) else stored
  }

  /** How often a call occurs in a log. */
  function Occurrences(calls: seq<Call>, c: Call): nat
  {
    if |calls| == 0 then 0
    else (if calls[0] == c then 1 else 0) + Occurrences(calls[1..], c)
  }

  /** The CPU-rate part of a clock: nothing off the every-third tick,
      otherwise a DMA tick while a transfer is active, else one CPU step.
      The CPU step is only logged: the CPU it drives keeps its own memory,
      so RAM, DMA and the controller are kept on the assumption that the
      step never reads or writes through the bus. */
  function CpuRateWork(b: BusState, dev: Devices): (r: BusState)
    ensures r.ram == b.ram && r.controller1 == b.controller1 && r.clockCounter == b.clockCounter
    ensures b.clockCounter % 3 != 0 ==> r == b
    ensures b.clockCounter % 3 == 0 && !b.dmaTransfer ==>
              r == b.(calls := b.calls + [CpuStep], cpuClockCounter := b.cpuClockCounter + 1)
    ensures b.dmaTransfer ==> r.cpuClockCounter == b.cpuClockCounter
  {
    if b.clockCounter % 3 != 0 then b
    else if b.dmaTransfer then DmaTick(b, dev)
    else b.(calls := b.calls + [CpuStep], cpuClockCounter := b.cpuClockCounter + 1)
  }

  /** Bus::clock. `nmi` is the PPU's nmi flag after its clock step. The PPU
      is clocked every time; the CPU, or the DMA transfer that suspends it,
      only when the counter is a multiple of 3; a raised nmi is forwarded
      once; the 32-bit counter then advances. */
  function Clock(b: BusState, dev: Devices, nmi: bool): (r: BusState)
    ensures r.clockCounter == Tick32(b.clockCounter)
    ensures r.cpuClockCounter == b.cpuClockCounter + if b.clockCounter % 3 == 0 && !b.dmaTransfer then 1 else 0
    ensures b.clockCounter % 3 != 0 ==> r.(calls := b.calls, clockCounter := b.clockCounter) == b
    ensures r.ram == b.ram && r.controller1 == b.controller1
  {
    var clocked := b.(calls := b.calls + [PpuClock]);
    var worked := CpuRateWork(clocked, dev);
    var signalled := if nmi then worked.(calls := worked.calls + [CpuNmi]) else worked;
    signalled.(clockCounter := Tick32(b.clockCounter))
  }

  /** `++clockCounter` on a `uint32_t`: 0xFFFFFFFF wraps to 0. */
  function Tick32(c: Uint32): Uint32
  {
    if c == 0xFFFF_FFFF then 0 else c + 1
  }

  /** A DMA tick adds at most the device read of its source byte to the
      log: never a CPU step or NMI. */
  lemma DmaTickLog(b: BusState, dev: Devices)
    ensures b.calls <= DmaTick(b, dev).calls
    ensures var added := DmaTick(b, dev).calls[|b.calls|..];
            CpuStep !in added && CpuNmi !in added
  {
  }

  /** The log of one clock: PpuClock first, then exactly one CpuStep when
      the CPU ran, and exactly one CpuNmi when the PPU raised nmi. */
  lemma ClockLog(b: BusState, dev: Devices, nmi: bool)
    ensures var r := Clock(b, dev, nmi);
            && |r.calls| > |b.calls| && r.calls[..|b.calls| + 1] == b.calls + [PpuClock]
            && Occurrences(r.calls[|b.calls|..], CpuNmi) == (if nmi then 1 else 0)
            && Occurrences(r.calls[|b.calls|..], CpuStep) == (if b.clockCounter % 3 == 0 && !b.dmaTransfer then 1 else 0)
  {
    var clocked := b.(calls := b.calls + [PpuClock]);
    var worked := CpuRateWork(clocked, dev);
    if b.clockCounter % 3 == 0 && b.dmaTransfer {
      DmaTickLog(clocked, dev);
    }
    var signalled := if nmi then worked.(calls := worked.calls + [CpuNmi]) else worked;
    CallsSplit(b.calls, clocked.calls, worked.calls, signalled.calls, b.clockCounter % 3 == 0 && !b.dmaTransfer, nmi);
  }

  /** Counting in a log that grew by PpuClock, the tick's work and the
      optional CpuNmi. */
  lemma {:induction false} CallsSplit(c0: seq<Call>, c1: seq<Call>, c2: seq<Call>, c3: seq<Call>, stepped: bool, nmi: bool)
    requires c1 == c0 + [PpuClock] && c1 <= c2 && c2 <= c3
    requires stepped ==> c2 == c1 + [CpuStep]
    requires !stepped ==> CpuStep !in c2[|c1|..] && CpuNmi !in c2[|c1|..]
    requires nmi ==> c3 == c2 + [CpuNmi]
    requires !nmi ==> c3 == c2
    ensures c3[..|c0| + 1] == c0 + [PpuClock]
    ensures Occurrences(c3[|c0|..], CpuNmi) == if nmi then 1 else 0
    ensures Occurrences(c3[|c0|..], CpuStep) == if stepped then 1 else 0
  {
    var added := c3[|c0|..];
    var work := c2[|c1|..];
    var tail := c3[|c2|..];
    assert added == [PpuClock] + work + tail;
    OccurrencesAppend([PpuClock] + work, tail, CpuNmi);
    OccurrencesAppend([PpuClock] + work, tail, CpuStep);
    OccurrencesAppend([PpuClock], work, CpuNmi);
    OccurrencesAppend([PpuClock], work, CpuStep);
    OccurrencesAbsent(work, CpuNmi);
    if !stepped {
      OccurrencesAbsent(work, CpuStep);
    }
    if !nmi {
      OccurrencesAbsent(tail, CpuNmi);
    }
    OccurrencesAbsent(tail, CpuStep);
  }

  /** Counting distributes over concatenation. */
  lemma {:induction false} OccurrencesAppend(s: seq<Call>, t: seq<Call>, c: Call)
    ensures Occurrences(s + t, c) == Occurrences(s, c) + Occurrences(t, c)
  {
    if |s| == 0 {
      assert s + t == t;
    } else {
      assert (s + t)[0] == s[0];
      assert (s + t)[1..] == s[1..] + t;
      OccurrencesAppend(s[1..], t, c);
    }
  }

  /** A call that is not in a log occurs in it zero times. */
  lemma {:induction false} OccurrencesAbsent(s: seq<Call>, c: Call)
    ensures c !in s <==> Occurrences(s, c) == 0
  {
    if |s| > 0 {
      assert s == [s[0]] + s[1..];
      OccurrencesAbsent(s[1..], c);
    }
  }

  /** Successive clocks, one nmi flag per clock. */
  function Run(b: BusState, dev: Devices, nmis: seq<bool>): (r: BusState)
    ensures r.ram == b.ram && r.controller1 == b.controller1
    ensures b.clockCounter + |nmis| < 0x1_0000_0000 ==> r.clockCounter == b.clockCounter + |nmis|
    decreases |nmis|
  {
    if |nmis| == 0 then b else Run(Clock(b, dev, nmis[0]), dev, nmis[1..])
  }
}
