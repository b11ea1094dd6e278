/**
  Properties of the bus across several operations: the RAM mirror as a
  write-then-read round trip, the controller port delivering the latched
  buttons eight bits at a time, and a complete OAM DMA transfer.
*/
module BusProperties {
  import opened Cpu
  import opened Bus

  // ------------------------------------------------------------ RAM mirror

  /** A RAM write is visible at every address congruent to it modulo 0x800. */
  lemma RamMirror(b: BusState, dev: Devices, address: Word, alias: Word, v: Byte)
    requires address <= 0x1FFF && alias <= 0x1FFF && address % 0x800 == alias % 0x800
    ensures Read(Write(b, address, v), dev, alias).0 == v
  {
  }

  /** A RAM write changes no other RAM cell. */
  lemma RamWriteIsolated(b: BusState, dev: Devices, address: Word, other: Word, v: Byte)
    requires address <= 0x1FFF && other <= 0x1FFF && address % 0x800 != other % 0x800
    ensures Read(Write(b, address, v), dev, other).0 == Read(b, dev, other).0
  {
  }

  /** Starting OAM DMA touches no RAM and reads nothing. */
  lemma DmaStartLeavesRam(b: BusState, dev: Devices, page: Byte)
    ensures Write(b, 0x4014, page).ram == b.ram
    ensures Write(b, 0x4014, page).dmaTransfer
    ensures DmaSource(Write(b, 0x4014, page)) == page * 0x100
  {
  }

  // ------------------------------------------------------------ Controller

  /** `n` successive reads of one address, with the bytes they returned. */
  function ReadMany(b: BusState, dev: Devices, address: Word, n: nat): (r: (seq<Byte>, BusState))
    ensures |r.0| == n
    decreases n
  {
    if n == 0 then ([], b)
    else
      var (v, next) := Read(b, dev, address);
      var (rest, last) := ReadMany(next, dev, address, n - 1);
      ([v] + rest, last)
  }

  /** The low `n` bits of `v`, least significant first. */
  function Bits(v: nat, n: nat): (r: seq<Byte>)
    ensures |r| == n
  {
    if n == 0 then [] else [v % 2] + Bits(v / 2, n - 1)
  }

  /** The number whose bits, least significant first, are `bits`. */
  function FromBits(bits: seq<Byte>): nat
  {
    if |bits| == 0 then 0 else bits[0] + 2 * FromBits(bits[1..])
  }

  function Pow2(n: nat): (r: nat)
    ensures r >= 1
  {
    if n == 0 then 1 else 2 * Pow2(n - 1)
  }

  /** The bits of a byte reassemble to the byte. */
  lemma {:induction false} BitsRoundTrip(v: nat, n: nat)
    requires v < Pow2(n)
    ensures FromBits(Bits(v, n)) == v
  {
    if n > 0 {
      BitsRoundTrip(v / 2, n - 1);
      assert Bits(v, n)[1..] == Bits(v / 2, n - 1);
    }
  }

  /** Reads continuing a group: each returns the next bit of the shadow,
      and the group ends with the count back at 8. */
  lemma {:induction false} ControllerDrain(b: BusState, dev: Devices, k: nat)
    requires b.controllerReads <= 8 && k == 8 - b.controllerReads
    ensures ReadMany(b, dev, 0x4016, k).0 == Bits(b.shadow, k)
    ensures ReadMany(b, dev, 0x4016, k).1.controllerReads == 8
    ensures ReadMany(b, dev, 0x4016, k).1.(shadow := b.shadow, controllerReads := b.controllerReads) == b
    decreases k
  {
    if k > 0 {
      var next := b.(shadow := b.shadow / 2, controllerReads := b.controllerReads + 1);
      assert Read(b, dev, 0x4016) == (b.shadow % 2, next);
      ControllerDrain(next, dev, k - 1);
    }
  }

  /** A group of eight reads of 0x4016 starting when the count is 8 returns
      the buttons latched from controller1, least significant bit first,
      and leaves the count at 8 so the next group latches afresh. */
  lemma ControllerGroup(b: BusState, dev: Devices)
    requires b.controllerReads == 8
    ensures ReadMany(b, dev, 0x4016, 8).0 == Bits(b.controller1, 8)
    ensures FromBits(ReadMany(b, dev, 0x4016, 8).0) == b.controller1
    ensures ReadMany(b, dev, 0x4016, 8).1.controllerReads == 8
    ensures ReadMany(b, dev, 0x4016, 8).1.(shadow := b.shadow) == b
  {
    var next := b.(shadow := b.controller1 / 2, controllerReads := 1);
    assert Read(b, dev, 0x4016) == (b.controller1 % 2, next);
    ControllerDrain(next, dev, 7);
    assert Pow2(8) == 0x100;
    BitsRoundTrip(b.controller1, 8);
  }

  // ------------------------------------------------------------ OAM DMA

  /** Running two stretches of clocks one after the other. */
  lemma {:induction false} RunAppend(b: BusState, dev: Devices, first: seq<bool>, second: seq<bool>)
    ensures Run(b, dev, first + second) == Run(Run(b, dev, first), dev, second)
    decreases |first|
  {
    if |first| > 0 {
      assert (first + second)[0] == first[0];
      assert (first + second)[1..] == first[1..] + second;
      RunAppend(Clock(b, dev, first[0]), dev, first[1..], second);
    } else {
      assert first + second == second;
    }
  }

  /** Cutting a run of clocks at `k` and running the two parts in turn. */
  lemma RunSplit(b: BusState, dev: Devices, nmis: seq<bool>, k: nat)
    requires k <= |nmis|
    ensures Run(b, dev, nmis) == Run(Run(b, dev, nmis[..k]), dev, nmis[k..])
  {
    RunAppend(b, dev, nmis[..k], nmis[k..]);
    assert nmis[..k] + nmis[k..] == nmis;
  }

  /** Two clocks off the every-third tick only log calls and count. */
  lemma IdleClocks(b: BusState, dev: Devices, nmis: seq<bool>)
    requires |nmis| == 2 && b.clockCounter % 3 == 1 && b.clockCounter + 2 < 0x1_0000_0000
    ensures Run(b, dev, nmis).(calls := b.calls, clockCounter := b.clockCounter) == b
    ensures Run(b, dev, nmis).clockCounter == b.clockCounter + 2
  {
    Phases(b.clockCounter);
    var b1 := Clock(b, dev, nmis[0]);
    var b2 := Clock(b1, dev, nmis[1]);
    assert Run(b1, dev, nmis[1..]) == Run(b2, dev, nmis[2..]);
  }

  /** Three clocks starting on a CPU-rate tick during DMA: one DMA tick. */
  lemma DmaThreeClocks(b: BusState, dev: Devices, nmis: seq<bool>)
    requires |nmis| == 3 && b.dmaTransfer && b.clockCounter % 3 == 0 && b.clockCounter + 3 < 0x1_0000_0000
    ensures var r := Run(b, dev, nmis);
            && r.(calls := b.calls, clockCounter := b.clockCounter)
                 == DmaTick(b.(calls := b.calls + [PpuClock]), dev).(calls := b.calls)
            && r.clockCounter == b.clockCounter + 3
  {
    Phases(b.clockCounter);
    var b1 := Clock(b, dev, nmis[0]);
    assert b1.(calls := b.calls, clockCounter := b.clockCounter)
        == DmaTick(b.(calls := b.calls + [PpuClock]), dev).(calls := b.calls);
    IdleClocks(b1, dev, nmis[1..]);
  }

  /** Six clocks from an even CPU-rate tick of a started transfer copy one
      byte: the even tick reads it from the source page, the odd tick
      stores it into OAM and advances the address. */
  lemma DmaByte(b: BusState, dev: Devices, nmis: seq<bool>) returns (m: BusState)
    requires |nmis| == 6 && b.dmaTransfer && b.dmaCanStart
    requires b.clockCounter % 6 == 0 && b.clockCounter + 6 < 0x1_0000_0000
    requires Route(DmaSource(b)) != ControllerPort
    ensures m == Run(b, dev, nmis)
    ensures m.oam == b.oam[b.dmaAddress := Peek(b.ram, dev, b.dmaPage * 0x100 + b.dmaAddress)]
    ensures m.dmaTransfer == m.dmaCanStart == (b.dmaAddress != 0xFF)
    ensures b.dmaAddress != 0xFF ==> m.dmaAddress == b.dmaAddress + 1
    ensures m.dmaPage == b.dmaPage && m.ram == b.ram && m.cpuClockCounter == b.cpuClockCounter
    ensures m.clockCounter == b.clockCounter + 6
  {
    var latched := DmaLatch(b, dev, nmis);
    DmaWritePhase(latched, dev, nmis[3..]);
    m := Run(latched, dev, nmis[3..]);
    NextAddress(b.dmaAddress);
  }

  /** The 8-bit DMA address only wraps after 0xFF. */
  lemma NextAddress(address: Byte)
    ensures address != 0xFF ==> Wrap8(address + 1) == address + 1
    ensures address == 0xFF ==> Wrap8(address + 1) == 0
  {
  }

  /** The first three clocks of a DMA byte, as the state they leave. */
  lemma DmaLatch(b: BusState, dev: Devices, nmis: seq<bool>) returns (m: BusState)
    requires |nmis| == 6 && b.dmaTransfer && b.dmaCanStart
    requires b.clockCounter % 6 == 0 && b.clockCounter + 6 < 0x1_0000_0000
    requires Route(DmaSource(b)) != ControllerPort
    ensures Run(b, dev, nmis) == Run(m, dev, nmis[3..])
    ensures m.dmaData == Peek(b.ram, dev, b.dmaPage * 0x100 + b.dmaAddress)
    ensures m.oam == b.oam && m.dmaAddress == b.dmaAddress && m.dmaPage == b.dmaPage
    ensures m.dmaTransfer && m.dmaCanStart
    ensures m.ram == b.ram && m.cpuClockCounter == b.cpuClockCounter
    ensures m.clockCounter == b.clockCounter + 3 && m.clockCounter % 6 == 3
  {
    RunSplit(b, dev, nmis, 3);
    DmaReadPhase(b, dev, nmis[..3]);
    m := Run(b, dev, nmis[..3]);
    LatchedFields(b, m, Peek(b.ram, dev, DmaSource(b)));
    Phases(b.clockCounter);
  }

  /** The fields of a state that differs from `b` only in its log, its
      clock counter and the latched DMA byte. */
  lemma LatchedFields(b: BusState, m: BusState, data: Byte)
    requires m.(calls := b.calls, clockCounter := b.clockCounter) == b.(dmaData := data)
    ensures m.dmaData == data && m.oam == b.oam && m.dmaAddress == b.dmaAddress && m.dmaPage == b.dmaPage
    ensures m.dmaTransfer == b.dmaTransfer && m.dmaCanStart == b.dmaCanStart
    ensures m.ram == b.ram && m.cpuClockCounter == b.cpuClockCounter
  {
    var f := m.(calls := b.calls, clockCounter := b.clockCounter);
    assert f.dmaData == m.dmaData && f.oam == m.oam && f.ram == m.ram;
  }

  /** Where a clock count sits in the six-clock cycle of DMA (two CPU-rate
      ticks of three clocks each) and where the next counts sit. */
  lemma Phases(c: int)
    ensures c % 3 == 0 ==> (c + 1) % 3 == 1 && (c % 6 == 0 || c % 6 == 3)
    ensures c % 3 == 1 ==> (c + 1) % 3 == 2
    ensures c % 6 == 0 ==> c % 3 == 0 && c % 2 == 0 && (c + 3) % 6 == 3 && (c + 6) % 6 == 0
    ensures c % 6 == 3 ==> c % 3 == 0 && c % 2 == 1 && (c + 3) % 6 == 0
  {
    var q := c / 6;
    var m := c % 6;
    assert c == 6 * q + m;
    if m == 0 {
      Mod3(c, 2 * q, 0); Mod3(c + 1, 2 * q, 1); Mod2(c, 3 * q, 0); Mod6(c + 3, q, 3); Mod6(c + 6, q + 1, 0);
    } else if m == 1 {
      Mod3(c, 2 * q, 1); Mod3(c + 1, 2 * q, 2);
    } else if m == 2 {
      Mod3(c, 2 * q, 2);
    } else if m == 3 {
      Mod3(c, 2 * q + 1, 0); Mod3(c + 1, 2 * q + 1, 1); Mod2(c, 3 * q + 1, 1); Mod6(c + 3, q + 1, 0);
    } else if m == 4 {
      Mod3(c, 2 * q + 1, 1); Mod3(c + 1, 2 * q + 1, 2);
    } else {
      Mod3(c, 2 * q + 1, 2);
    }
  }

  /** Remainders from an explicit quotient. */
  lemma Mod2(c: int, q: int, r: int)
    requires c == 2 * q + r && 0 <= r < 2
    ensures c % 2 == r
  {
  }

  lemma Mod3(c: int, q: int, r: int)
    requires c == 3 * q + r && 0 <= r < 3
    ensures c % 3 == r
  {
  }

  lemma Mod6(c: int, q: int, r: int)
    requires c == 6 * q + r && 0 <= r < 6
    ensures c % 6 == r
  {
  }

  /** The three clocks of an even DMA tick latch the source byte. */
  lemma DmaReadPhase(b: BusState, dev: Devices, nmis: seq<bool>)
    requires |nmis| == 3 && b.dmaTransfer && b.dmaCanStart
    requires b.clockCounter % 6 == 0 && b.clockCounter + 6 < 0x1_0000_0000
    requires Route(DmaSource(b)) != ControllerPort
    ensures var m := Run(b, dev, nmis);
            && m.(calls := b.calls, clockCounter := b.clockCounter) == b.(dmaData := Peek(b.ram, dev, DmaSource(b)))
            && m.clockCounter == b.clockCounter + 3
  {
    Phases(b.clockCounter);
    DmaThreeClocks(b, dev, nmis);
    DmaReadTick(b.(calls := b.calls + [PpuClock]), dev);
  }

  /** The three clocks of an odd DMA tick store the latched byte. */
  lemma DmaWritePhase(b: BusState, dev: Devices, nmis: seq<bool>)
    requires |nmis| == 3 && b.dmaTransfer && b.dmaCanStart
    requires b.clockCounter % 6 == 3 && b.clockCounter + 3 < 0x1_0000_0000
    ensures var r := Run(b, dev, nmis);
            && r.oam == b.oam[b.dmaAddress := b.dmaData]
            && r.dmaAddress == Wrap8(b.dmaAddress + 1)
            && r.dmaTransfer == r.dmaCanStart == (b.dmaAddress != 0xFF)
            && r.dmaPage == b.dmaPage && r.ram == b.ram
            && r.cpuClockCounter == b.cpuClockCounter
            && r.clockCounter == b.clockCounter + 3
  {
    Phases(b.clockCounter);
    DmaThreeClocks(b, dev, nmis);
    DmaWriteTick(b.(calls := b.calls + [PpuClock]), dev);
  }

  /** The even tick of a started transfer latches the source byte. */
  lemma DmaReadTick(b: BusState, dev: Devices)
    requires b.dmaTransfer && b.dmaCanStart && b.clockCounter % 2 == 0
    requires Route(DmaSource(b)) != ControllerPort
    ensures DmaTick(b, dev).(calls := b.calls) == b.(dmaData := Peek(b.ram, dev, DmaSource(b)))
  {
  }

  /** The odd tick of a started transfer stores the latched byte. */
  lemma DmaWriteTick(b: BusState, dev: Devices)
    requires b.dmaTransfer && b.dmaCanStart && b.clockCounter % 2 == 1
    ensures var r := DmaTick(b, dev);
            && r.oam == b.oam[b.dmaAddress := b.dmaData]
            && r.dmaAddress == Wrap8(b.dmaAddress + 1)
            && r.dmaTransfer == r.dmaCanStart == (b.dmaAddress != 0xFF)
            && r.(oam := b.oam, dmaAddress := b.dmaAddress, dmaTransfer := b.dmaTransfer, dmaCanStart := b.dmaCanStart) == b
  {
  }

  /** From a started transfer at address `a`, 6 * (256 - a) clocks copy the
      rest of the page and end the transfer, without stepping the CPU. */
  lemma {:induction false} DmaRest(b: BusState, dev: Devices, nmis: seq<bool>)
    requires b.dmaTransfer && b.dmaCanStart && b.dmaPage != 0x40
    requires b.clockCounter % 6 == 0 && b.clockCounter + |nmis| < 0x1_0000_0000
    requires |nmis| == 6 * (0x100 - b.dmaAddress)
    ensures var r := Run(b, dev, nmis);
            && !r.dmaTransfer && !r.dmaCanStart && r.ram == b.ram
            && r.cpuClockCounter == b.cpuClockCounter
            && (forall i :: 0 <= i < b.dmaAddress ==> r.oam[i] == b.oam[i])
            && (forall i :: b.dmaAddress <= i < 0x100 ==> r.oam[i] == Peek(b.ram, dev, b.dmaPage * 0x100 + i))
    decreases 0x100 - b.dmaAddress
  {
    var m := DmaFirstByte(b, dev, nmis);
    if b.dmaAddress != 0xFF {
      DmaRest(m, dev, nmis[6..]);
      CopiedSoFar(b, m, Run(m, dev, nmis[6..]), dev);
    }
  }

  /** Splits a run of a started transfer after its first byte: returns the
      state six clocks in, from which the rest of the run continues. */
  lemma DmaFirstByte(b: BusState, dev: Devices, nmis: seq<bool>) returns (m: BusState)
    requires b.dmaTransfer && b.dmaCanStart && b.dmaPage != 0x40
    requires b.clockCounter % 6 == 0 && b.clockCounter + |nmis| < 0x1_0000_0000
    requires |nmis| == 6 * (0x100 - b.dmaAddress)
    ensures Run(b, dev, nmis) == Run(m, dev, nmis[6..])
    ensures m.oam == b.oam[b.dmaAddress := Peek(b.ram, dev, b.dmaPage * 0x100 + b.dmaAddress)]
    ensures m.dmaTransfer == m.dmaCanStart == (b.dmaAddress != 0xFF)
    ensures b.dmaAddress != 0xFF ==> m.dmaAddress == b.dmaAddress + 1
    ensures b.dmaAddress == 0xFF ==> nmis[6..] == []
    ensures m.dmaPage == b.dmaPage && m.ram == b.ram && m.cpuClockCounter == b.cpuClockCounter
    ensures m.clockCounter == b.clockCounter + 6 && m.clockCounter % 6 == 0
  {
    DmaSourceOutsideController(b);
    RunSplit(b, dev, nmis, 6);
    m := DmaByte(b, dev, nmis[..6]);
    Phases(b.clockCounter);
  }

  /** A source page other than 0x40 never reaches the controller port. */
  lemma DmaSourceOutsideController(b: BusState)
    requires b.dmaPage != 0x40
    ensures Route(DmaSource(b)) != ControllerPort
  {
  }

  /** Bus.cpp's OAM DMA: after a write of `page` to 0x4014, run
      starting on a CPU-rate tick, the transfer waits for an odd CPU-rate tick, then 1536
      clocks later OAM holds the 256 bytes of the page, the transfer has
      ended, RAM is unchanged and the CPU has not been stepped. */
  lemma DmaCopiesPage(b: BusState, dev: Devices, page: Byte, nmis: seq<bool>)
    requires !b.dmaCanStart && page != 0x40
    requires b.clockCounter % 3 == 0 && b.clockCounter + |nmis| < 0x1_0000_0000
    requires |nmis| == (if b.clockCounter % 6 == 3 then 3 else 6) + 0x600
    ensures var r := Run(Write(b, 0x4014, page), dev, nmis);
            && !r.dmaTransfer && !r.dmaCanStart && r.ram == b.ram
            && r.cpuClockCounter == b.cpuClockCounter
            && forall i :: 0 <= i < 0x100 ==> r.oam[i] == Peek(b.ram, dev, page * 0x100 + i)
  {
    var started := DmaWait(b, dev, page, nmis);
    DmaRest(started, dev, nmis[|nmis| - 0x600..]);
  }

  /** One more copied byte in front of the rest of the page. */
  lemma CopiedSoFar(b: BusState, m: BusState, r: BusState, dev: Devices)
    requires b.dmaAddress != 0xFF && m.dmaAddress == b.dmaAddress + 1
    requires m.ram == b.ram && m.dmaPage == b.dmaPage && b.dmaPage != 0x40
    requires m.oam == b.oam[b.dmaAddress := Peek(b.ram, dev, b.dmaPage * 0x100 + b.dmaAddress)]
    requires forall i :: 0 <= i < m.dmaAddress ==> r.oam[i] == m.oam[i]
    requires forall i :: m.dmaAddress <= i < 0x100 ==> r.oam[i] == Peek(m.ram, dev, m.dmaPage * 0x100 + i)
    ensures forall i :: 0 <= i < b.dmaAddress ==> r.oam[i] == b.oam[i]
    ensures forall i :: b.dmaAddress <= i < 0x100 ==> r.oam[i] == Peek(b.ram, dev, b.dmaPage * 0x100 + i)
  {
  }

  /** The clocks between the write to 0x4014 and the first byte: the state
      they leave has the transfer started at address 0 of `page`. */
  lemma DmaWait(b: BusState, dev: Devices, page: Byte, nmis: seq<bool>) returns (started: BusState)
    requires !b.dmaCanStart
    requires b.clockCounter % 3 == 0 && b.clockCounter + |nmis| < 0x1_0000_0000
    requires |nmis| == (if b.clockCounter % 6 == 3 then 3 else 6) + 0x600
    ensures Run(Write(b, 0x4014, page), dev, nmis) == Run(started, dev, nmis[|nmis| - 0x600..])
    ensures started.dmaTransfer && started.dmaCanStart && started.dmaAddress == 0 && started.dmaPage == page
    ensures started.ram == b.ram && started.cpuClockCounter == b.cpuClockCounter
    ensures started.clockCounter % 6 == 0 && started.clockCounter + 0x600 < 0x1_0000_0000
  {
    var w := Write(b, 0x4014, page);
    WriteEffects(b, 0x4014, page);
    var wait := |nmis| - 0x600;
    RunSplit(w, dev, nmis, wait);
    if b.clockCounter % 6 == 3 {
      started := DmaArm(w, dev, nmis[..wait]);
    } else {
      Phases(b.clockCounter);
      var waited := DmaSkip(w, dev, nmis[..wait][..3]);
      started := DmaArm(waited, dev, nmis[..wait][3..]);
      RunSplit(w, dev, nmis[..wait], 3);
    }
  }

  /** An odd CPU-rate tick lets a pending transfer start. */
  lemma DmaArm(b: BusState, dev: Devices, nmis: seq<bool>) returns (r: BusState)
    requires |nmis| == 3 && b.dmaTransfer && !b.dmaCanStart
    requires b.clockCounter % 6 == 3 && b.clockCounter + 3 < 0x1_0000_0000
    ensures r == Run(b, dev, nmis)
    ensures r.(calls := b.calls, clockCounter := b.clockCounter) == b.(dmaCanStart := true)
    ensures r.clockCounter == b.clockCounter + 3 && r.clockCounter % 6 == 0
  {
    Phases(b.clockCounter);
    DmaThreeClocks(b, dev, nmis);
    r := Run(b, dev, nmis);
  }

  /** An even CPU-rate tick of a pending transfer does nothing. */
  lemma DmaSkip(b: BusState, dev: Devices, nmis: seq<bool>) returns (r: BusState)
    requires |nmis| == 3 && b.dmaTransfer && !b.dmaCanStart
    requires b.clockCounter % 6 == 0 && b.clockCounter + 3 < 0x1_0000_0000
    ensures r == Run(b, dev, nmis)
    ensures r.(calls := b.calls, clockCounter := b.clockCounter) == b
    ensures r.clockCounter == b.clockCounter + 3 && r.clockCounter % 6 == 3
  {
    Phases(b.clockCounter);
    DmaThreeClocks(b, dev, nmis);
    r := Run(b, dev, nmis);
  }
}
