/**
  The console of NES.cpp: the power switch, the ROM-loaded flag, the
  cartridge, the CPU, the bus and the PPU's pattern-table memory, with
  `load_rom` (CHR copy and NROM PRG placement), `initNES` and `end`.

  PRG bytes reach the cartridge window through Bus::write, which hands
  every address from 0x4020 up to the cartridge (`cpu->writerom`, whose
  code is not part of this model). The model therefore reads the PRG
  placement off the bus's call log: the byte at a cartridge address is
  the data of the latest write logged for it.
*/
module Nes {
  import opened Wrappers
  import opened Cpu
  import opened Bus
  import opened Rom

  /** The PPU's 8 KiB pattern-table memory. */
  type PatternTable = s: seq<Byte> | |s| == 0x2000 witness seq(0x2000, _ => 0)

  /** Where NROM maps PRG ROM in the CPU address space. */
  const PrgWindow: Word := 0x8000
  /** The size of an NROM-128 bank, mirrored twice into the window. */
  const BankSize: nat := 0x4000

  /** The NES object: `on`, `rom_loaded`, `rom`, `cpu`, `bus` and the PPU
      pattern table. */
  datatype Console = Console(
    on: bool,
    romLoaded: bool,
    rom: NesRom,
    cpu: State,
    bus: BusState,
    patternTable: PatternTable)

  // ------------------------------------------------------------ The cartridge window

  /** The call is a cartridge write to `address`. */
  predicate WritesTo(call: Call, address: Word)
  {
    call.CartridgeWrite? && call.address == address
  }

  /** The data of the latest cartridge write to `address` in a call log, if
      there is one. */
  function LatestWrite(calls: seq<Call>, address: Word): (r: Option<Byte>)
    ensures r.Some? <==> exists k :: 0 <= k < |calls| && WritesTo(calls[k], address)
    ensures r.Some? ==> exists k :: && 0 <= k < |calls| && calls[k] == CartridgeWrite(address, r.value)
                                    && forall j :: k < j < |calls| ==> !WritesTo(calls[j], address)
  {
    if |calls| == 0 then None
    else
      var last := calls[|calls| - 1];
      if last.CartridgeWrite? && last.address == address then Some(last.data)
      else LatestWrite(calls[..|calls| - 1], address)
  }

  /** Logging one more cartridge write overrides its address and no other. */
  lemma LatestWriteAppend(calls: seq<Call>, target: Word, data: Byte)
    ensures forall address: Word :: LatestWrite(calls + [CartridgeWrite(target, data)], address)
              == if address == target then Some(data) else LatestWrite(calls, address)
  {
    assert (calls + [CartridgeWrite(target, data)])[..|calls|] == calls;
  }

  /** A bus write into the cartridge window only logs the write. */
  lemma CartridgeWriteLogs(b: BusState, address: Word, data: Byte)
    requires address >= PrgWindow
    ensures Write(b, address, data) == b.(calls := b.calls + [CartridgeWrite(address, data)])
  {
    RouteDecodes(address);
  }

  /** The cartridge holds enough PRG ROM for its board (16 KiB for
      NROM-128, 32 KiB for NROM-256) and a full 8 KiB of CHR ROM: load_rom
      reads that much without checking. */
  predicate Fits(rom: NesRom)
  {
    |rom.chr| >= 0x2000 && |rom.prg| >= (if rom.mirrored then BankSize else 2 * BankSize)
  }

  /** The byte NROM maps at a cartridge-window address: NROM-128 repeats its
      16 KiB bank at 0x8000 and 0xC000, NROM-256 maps 32 KiB once. */
  function PrgAt(rom: NesRom, address: Word): Byte
    requires Fits(rom) && address >= PrgWindow
  {
    if rom.mirrored then rom.prg[(address - PrgWindow) % BankSize] else rom.prg[address - PrgWindow]
  }

  /** NROM-128 mirroring: both halves of the window read the same byte. */
  lemma MirroredHalvesAgree(rom: NesRom, address: Word)
    requires Fits(rom) && rom.mirrored && PrgWindow <= address < PrgWindow + BankSize
    ensures PrgAt(rom, address) == PrgAt(rom, address + BankSize) == rom.prg[address - PrgWindow]
  {
  }

  /** A 16 KiB bank mirrored is the same window as the bank repeated twice
      and mapped unmirrored. */
  lemma MirroringIsRepetition(rom: NesRom, address: Word)
    requires Fits(rom) && rom.mirrored && address >= PrgWindow
    ensures var bank := rom.prg[..BankSize];
            var flat := rom.(prg := bank + bank, mirrored := false);
            Fits(flat) && PrgAt(rom, address) == PrgAt(flat, address)
  {
    var bank := rom.prg[..BankSize];
    var offset := address - PrgWindow;
    if offset >= BankSize {
      assert offset % BankSize == offset - BankSize;
    }
  }

  // ------------------------------------------------------------ load_rom

  /** The CHR copy loop of load_rom (`writePatternTable` is taken to store
      the byte at its index). */
  method CopyPatternTable(table: PatternTable, chr: seq<Byte>) returns (r: PatternTable)
    requires |chr| >= 0x2000
    ensures r == chr[..0x2000]
  {
    r := table;
    var i := 0;
    while i < 0x2000
      invariant 0 <= i <= 0x2000
      invariant forall k :: 0 <= k < i ==> r[k] == chr[k]
    {
      r := r[i := chr[i]];
      i := i + 1;
    }
  }

  /** The NROM-256 loop: 32 KiB written once from 0x8000. */
  method PlaceUnmirrored(b: BusState, prg: seq<Byte>) returns (r: BusState)
    requires |prg| >= 2 * BankSize
    ensures r.(calls := b.calls) == b && b.calls <= r.calls
    ensures forall address: Word :: address >= PrgWindow ==>
              LatestWrite(r.calls, address) == Some(prg[address - PrgWindow])
    ensures forall address: Word :: address < PrgWindow ==>
              LatestWrite(r.calls, address) == LatestWrite(b.calls, address)
  {
    r := b;
    var i := 0;
    while i < 2 * BankSize
      invariant 0 <= i <= 2 * BankSize
      invariant r.(calls := b.calls) == b && b.calls <= r.calls
      invariant forall address: Word :: LatestWrite(r.calls, address) == UnmirroredSoFar(b.calls, prg, i, address)
    {
      UnmirroredIteration(b, r, prg, i);
      r := Write(r, PrgWindow + i, prg[i]);
      i := i + 1;
    }
    UnmirroredDone(r.calls, b.calls, prg);
  }

  /** One NROM-256 iteration keeps the loop invariant. */
  lemma UnmirroredIteration(b: BusState, r: BusState, prg: seq<Byte>, i: nat)
    requires i < 2 * BankSize <= |prg|
    requires r.(calls := b.calls) == b && b.calls <= r.calls
    requires forall address: Word :: LatestWrite(r.calls, address) == UnmirroredSoFar(b.calls, prg, i, address)
    ensures var next := Write(r, PrgWindow + i, prg[i]);
            && next.(calls := b.calls) == b && b.calls <= next.calls
            && forall address: Word :: LatestWrite(next.calls, address) == UnmirroredSoFar(b.calls, prg, i + 1, address)
  {
    UnmirroredSoFarStep(b.calls, prg, i);
    var next := CartridgeStep(r, PrgWindow + i, prg[i]);
  }

  lemma UnmirroredSoFarStep(calls: seq<Call>, prg: seq<Byte>, i: nat)
    requires i < 2 * BankSize <= |prg|
    ensures forall address: Word :: UnmirroredSoFar(calls, prg, i + 1, address)
              == if address == PrgWindow + i then Some(prg[i]) else UnmirroredSoFar(calls, prg, i, address)
  {
    forall address: Word
      ensures UnmirroredSoFar(calls, prg, i + 1, address)
                == if address == PrgWindow + i then Some(prg[i]) else UnmirroredSoFar(calls, prg, i, address)
    {
      if address == PrgWindow + i {
        assert UnmirroredSoFar(calls, prg, i + 1, address) == Some(prg[i]);
      }
    }
  }

  /** After the last NROM-256 iteration the window holds the 32 KiB once. */
  lemma UnmirroredDone(calls: seq<Call>, before: seq<Call>, prg: seq<Byte>)
    requires |prg| >= 2 * BankSize
    requires forall address: Word :: LatestWrite(calls, address) == UnmirroredSoFar(before, prg, 2 * BankSize, address)
    ensures forall address: Word :: address >= PrgWindow ==>
              LatestWrite(calls, address) == Some(prg[address - PrgWindow])
    ensures forall address: Word :: address < PrgWindow ==>
              LatestWrite(calls, address) == LatestWrite(before, address)
  {
    forall address: Word
      ensures LatestWrite(calls, address) == UnmirroredSoFar(before, prg, 2 * BankSize, address)
    {
    }
  }

  /** What the cartridge window holds after `i` NROM-256 iterations. */
  function UnmirroredSoFar(calls: seq<Call>, prg: seq<Byte>, i: nat, address: Word): Option<Byte>
    requires i <= 2 * BankSize <= |prg|
  {
    if PrgWindow <= address < PrgWindow + i then Some(prg[address - PrgWindow]) else LatestWrite(calls, address)
  }

  /** The NROM-128 loop: each byte of the 16 KiB bank written at 0x8000 + i
      and again at 0xC000 + i. */
  method PlaceMirrored(b: BusState, prg: seq<Byte>) returns (r: BusState)
    requires |prg| >= BankSize
    ensures r.(calls := b.calls) == b && b.calls <= r.calls
    ensures forall address: Word :: address >= PrgWindow ==>
              LatestWrite(r.calls, address) == Some(prg[(address - PrgWindow) % BankSize])
    ensures forall address: Word :: address < PrgWindow ==>
              LatestWrite(r.calls, address) == LatestWrite(b.calls, address)
  {
    r := b;
    var i := 0;
    while i < BankSize
      invariant 0 <= i <= BankSize
      invariant r.(calls := b.calls) == b && b.calls <= r.calls
      invariant forall address: Word :: LatestWrite(r.calls, address) == MirroredSoFar(b.calls, prg, i, address)
    {
      MirroredIteration(b, r, prg, i);
      r := Write(Write(r, PrgWindow + i, prg[i]), PrgWindow + BankSize + i, prg[i]);
      i := i + 1;
    }
    MirroredDone(r.calls, b.calls, prg);
  }

  /** One NROM-128 iteration keeps the loop invariant. */
  lemma MirroredIteration(b: BusState, r: BusState, prg: seq<Byte>, i: nat)
    requires i < BankSize <= |prg|
    requires r.(calls := b.calls) == b && b.calls <= r.calls
    requires forall address: Word :: LatestWrite(r.calls, address) == MirroredSoFar(b.calls, prg, i, address)
    ensures var next := Write(Write(r, PrgWindow + i, prg[i]), PrgWindow + BankSize + i, prg[i]);
            && next.(calls := b.calls) == b && b.calls <= next.calls
            && forall address: Word :: LatestWrite(next.calls, address) == MirroredSoFar(b.calls, prg, i + 1, address)
  {
    var next := MirroredPair(r, i, prg[i]);
    MirroredSoFarStep(b.calls, prg, i);
  }

  lemma MirroredSoFarStep(calls: seq<Call>, prg: seq<Byte>, i: nat)
    requires i < BankSize <= |prg|
    ensures forall address: Word :: MirroredSoFar(calls, prg, i + 1, address)
              == if address == PrgWindow + i || address == PrgWindow + BankSize + i then Some(prg[i])
                 else MirroredSoFar(calls, prg, i, address)
  {
    forall address: Word
      ensures MirroredSoFar(calls, prg, i + 1, address)
                == if address == PrgWindow + i || address == PrgWindow + BankSize + i then Some(prg[i])
                   else MirroredSoFar(calls, prg, i, address)
    {
      if address == PrgWindow + i {
        assert MirroredSoFar(calls, prg, i + 1, address) == Some(prg[i]);
      } else if address == PrgWindow + BankSize + i {
        assert MirroredSoFar(calls, prg, i + 1, address) == Some(prg[i]);
      }
    }
  }

  /** After the last NROM-128 iteration the window holds the bank twice. */
  lemma MirroredDone(calls: seq<Call>, before: seq<Call>, prg: seq<Byte>)
    requires |prg| >= BankSize
    requires forall address: Word :: LatestWrite(calls, address) == MirroredSoFar(before, prg, BankSize, address)
    ensures forall address: Word :: address >= PrgWindow ==>
              LatestWrite(calls, address) == Some(prg[(address - PrgWindow) % BankSize])
    ensures forall address: Word :: address < PrgWindow ==>
              LatestWrite(calls, address) == LatestWrite(before, address)
  {
    forall address: Word | address >= PrgWindow
      ensures LatestWrite(calls, address) == Some(prg[(address - PrgWindow) % BankSize])
    {
      BankOffset(address);
      assert LatestWrite(calls, address) == MirroredSoFar(before, prg, BankSize, address);
    }
    forall address: Word | address < PrgWindow
      ensures LatestWrite(calls, address) == LatestWrite(before, address)
    {
      assert LatestWrite(calls, address) == MirroredSoFar(before, prg, BankSize, address);
    }
  }

  /** What the cartridge window holds after `i` NROM-128 iterations. */
  function MirroredSoFar(calls: seq<Call>, prg: seq<Byte>, i: nat, address: Word): Option<Byte>
    requires i <= BankSize <= |prg|
  {
    if PrgWindow <= address < PrgWindow + i then Some(prg[address - PrgWindow])
    else if PrgWindow + BankSize <= address < PrgWindow + BankSize + i then Some(prg[address - PrgWindow - BankSize])
    else LatestWrite(calls, address)
  }

  /** One NROM-128 iteration: the byte lands at both mirrors and nowhere else. */
  lemma MirroredPair(b: BusState, i: nat, data: Byte) returns (r: BusState)
    requires i < BankSize
    ensures r == Write(Write(b, PrgWindow + i, data), PrgWindow + BankSize + i, data)
    ensures r.(calls := b.calls) == b && b.calls <= r.calls
    ensures forall address: Word :: LatestWrite(r.calls, address)
              == if address == PrgWindow + i || address == PrgWindow + BankSize + i then Some(data)
                 else LatestWrite(b.calls, address)
  {
    var m := CartridgeStep(b, PrgWindow + i, data);
    r := CartridgeStep(m, PrgWindow + BankSize + i, data);
  }

  /** A write into the cartridge window: the bus is unchanged apart from
      the log, and the written address now holds the byte. */
  lemma CartridgeStep(b: BusState, address: Word, data: Byte) returns (r: BusState)
    requires address >= PrgWindow
    ensures r == Write(b, address, data)
    ensures r.(calls := b.calls) == b && b.calls <= r.calls
    ensures forall a: Word :: LatestWrite(r.calls, a) == if a == address then Some(data) else LatestWrite(b.calls, a)
  {
    CartridgeWriteLogs(b, address, data);
    LatestWriteAppend(b.calls, address, data);
    r := Write(b, address, data);
  }

  /** The bank offset of a window address. */
  lemma BankOffset(address: Word)
    requires address >= PrgWindow
    ensures address < PrgWindow + BankSize ==> (address - PrgWindow) % BankSize == address - PrgWindow
    ensures address >= PrgWindow + BankSize ==> (address - PrgWindow) % BankSize == address - PrgWindow - BankSize
  {
  }

  // ------------------------------------------------------------ Board selection

  /** As written, a cartridge with one 16 KiB PRG bank is placed flat: the
      loaded object is never marked mirrored, so load_rom's NROM-256 loop
      reads 32 KiB from the 16 KiB buffer `load` allocated. */
  lemma SmallPrgOverruns(rom: NesRom, bytes: seq<Byte>)
    requires Complete(bytes) && IsValidHeader(ParseHeader(bytes)) && ParseHeader(bytes).prgRomSize == 1
    requires !rom.mirrored
    ensures var loaded := Load(rom, Some(bytes)).1;
            && !loaded.mirrored
            && |loaded.prg| == BankSize < 2 * BankSize
            && !Fits(loaded)
  {
  }

  /** With the board chosen from the PRG size, every file with one or two
      PRG banks and some CHR ROM fits its placement, and the window maps
      the PRG bytes of the file repeated to fill 32 KiB. */
  lemma DetectedBoardFits(rom: NesRom, bytes: seq<Byte>, address: Word)
    requires Complete(bytes) && IsValidHeader(ParseHeader(bytes))
    requires ParseHeader(bytes).prgRomSize in {1, 2} && ParseHeader(bytes).chrRomSize >= 1
    requires address >= PrgWindow
    ensures var loaded := DetectMapper(Load(rom, Some(bytes)).1);
            && Fits(loaded)
            && PrgAt(loaded, address) == bytes[HeaderSize + (address - PrgWindow) % PrgSize(ParseHeader(bytes))]
  {
    var h := ParseHeader(bytes);
    var loaded := DetectMapper(Load(rom, Some(bytes)).1);
    if h.prgRomSize == 1 {
      assert PrgSize(h) == BankSize;
      assert loaded.mirrored;
    } else {
      assert PrgSize(h) == 2 * BankSize;
      assert !loaded.mirrored;
      assert (address - PrgWindow) % PrgSize(h) == address - PrgWindow;
    }
  }

  /** NES::load_rom. Ignored while the console is on. Otherwise the file is
      loaded (its success is not checked, so a failed load keeps the old
      cartridge), rom_loaded is set regardless, the first 8 KiB of CHR ROM
      become the pattern table and the PRG ROM is placed into
      0x8000-0xFFFF, mirrored for a 16 KiB PRG ROM and flat otherwise (the
      board choice of DetectMapper, in place of the never-set flag). The
      CPU registers are untouched; what `cpu->writerom` does with the
      placed bytes is not part of this model. */
  method LoadRom(c: Console, file: Option<seq<Byte>>) returns (r: Console)
    requires file.Some? ==> Complete(file.value)
    requires !c.on ==> Fits(DetectMapper(Load(c.rom, file).1))
    ensures c.on ==> r == c
    ensures !c.on ==> && r.romLoaded && !r.on && r.cpu.(mem := c.cpu.mem) == c.cpu
                      && r.rom == DetectMapper(Load(c.rom, file).1)
                      && r.patternTable == r.rom.chr[..0x2000]
    ensures !c.on ==> && r.bus.(calls := c.bus.calls) == c.bus
                      && c.bus.calls <= r.bus.calls
                      && (forall address: Word :: address < PrgWindow ==>
                            LatestWrite(r.bus.calls, address) == LatestWrite(c.bus.calls, address))
                      && (forall address: Word :: address >= PrgWindow ==>
                            LatestWrite(r.bus.calls, address) == Some(PrgAt(r.rom, address)))
  {
    if c.on {
      return c;
    }
    var (_, loaded) := Load(c.rom, file);
    var rom := DetectMapper(loaded);
    var pattern := CopyPatternTable(c.patternTable, rom.chr);
    var bus;
    if rom.mirrored {
      bus := PlaceMirrored(c.bus, rom.prg);
    } else {
      bus := PlaceUnmirrored(c.bus, rom.prg);
    }
    r := c.(rom := rom, romLoaded := true, patternTable := pattern, bus := bus);
  }

  // ------------------------------------------------------------ Power

  /** NES::initNES: a no-op when already on; otherwise the CPU is reset and
      the console switched on. */
  function InitNes(c: Console): (r: Console)
    ensures r.on
    ensures c.on ==> r == c
    ensures !c.on ==> && r.cpu.pc == Word16(ReadMemory(c.cpu.mem, 0xFFFC), ReadMemory(c.cpu.mem, 0xFFFD))
                      && r.cpu.s == 0xFD && r.cpu.p == 0x24
                      && r.cpu.a == c.cpu.a && r.cpu.x == c.cpu.x && r.cpu.y == c.cpu.y
                      && r.cpu.mem == c.cpu.mem
                      && r.(cpu := c.cpu, on := c.on) == c
  {
    if c.on then c else c.(cpu := Reset(c.cpu), on := true)
  }

  /** NES::end: switches the console off and touches nothing else. */
  function End(c: Console): (r: Console)
    ensures !r.on && r.(on := c.on) == c
  {
    c.(on := false)
  }

  /** Switching on twice is switching on once. */
  lemma InitNesIdempotent(c: Console)
    ensures InitNes(InitNes(c)) == InitNes(c)
  {
  }

  /** `end` then `initNES` resets the CPU afresh, whether or not the
      console was on. */
  lemma EndThenInit(c: Console)
    ensures InitNes(End(c)) == c.(cpu := Reset(c.cpu), on := true)
  {
  }

  /** Switching off and on again from an on console leaves the registers
      of a fresh reset, whatever they were before. */
  lemma RestartResets(c: Console)
    requires c.on
    ensures var r := InitNes(End(c));
            && r.on && r.cpu.s == 0xFD && r.cpu.p == 0x24
            && r.cpu.pc == Word16(ReadMemory(c.cpu.mem, 0xFFFC), ReadMemory(c.cpu.mem, 0xFFFD))
            && r.cpu.mem == c.cpu.mem && r.bus == c.bus && r.rom == c.rom
  {
    EndThenInit(c);
  }
}
