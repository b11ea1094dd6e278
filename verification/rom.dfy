/**
  The iNES cartridge file as ROM.cpp reads it: a 16-byte header, the PRG
  ROM right after it, the CHR ROM right after that. The file stream is a
  byte sequence; a file that cannot be opened is `None`.
*/
module Rom {
  import opened Wrappers
  import opened Cpu

  /** `NES_HEADER_SIZE`. */
  const HeaderSize: nat := 16
  /** PRG ROM is counted in 16 KiB units, CHR ROM in 8 KiB units. */
  const PrgUnit: nat := 16 * 1024
  const ChrUnit: nat := 8 * 1024
  /** "NES" followed by MS-DOS end-of-file. */
  const Magic: seq<Byte> := [0x4E, 0x45, 0x53, 0x1A]

  /** The 16 bytes of `NESHeader`, field by field. */
  datatype Header = Header(
    magic: seq<Byte>,
    prgRomSize: Byte,
    chrRomSize: Byte,
    flags6: Byte,
    flags7: Byte,
    prgRamSize: Byte,
    flags9: Byte,
    flags10: Byte,
    padding: seq<Byte>)

  /** The two arrays of the struct have their declared lengths. */
  predicate WellFormed(h: Header)
  {
    |h.magic| == 4 && |h.padding| == 5
  }

  /** The header as it lies in the file. */
  function EncodeHeader(h: Header): (bytes: seq<Byte>)
    requires WellFormed(h)
    ensures |bytes| == HeaderSize
    ensures bytes[..4] == h.magic && bytes[4] == h.prgRomSize && bytes[5] == h.chrRomSize
  {
    h.magic + [h.prgRomSize, h.chrRomSize, h.flags6, h.flags7, h.prgRamSize, h.flags9, h.flags10] + h.padding
  }

  /** `file.read(&header, NES_HEADER_SIZE)`: the struct is filled from the
      first 16 bytes, in declaration order. */
  function ParseHeader(bytes: seq<Byte>): (h: Header)
    requires |bytes| >= HeaderSize
    ensures WellFormed(h)
    ensures EncodeHeader(h) == bytes[..HeaderSize]
  {
    var h := Header(bytes[..4], bytes[4], bytes[5], bytes[6], bytes[7], bytes[8], bytes[9], bytes[10], bytes[11..16]);
    assert EncodeHeader(h) == bytes[..HeaderSize];
    h
  }

  /** Parsing an encoded header gives the header back. */
  lemma ParseEncode(h: Header)
    requires WellFormed(h)
    ensures ParseHeader(EncodeHeader(h)) == h
  {
    var bytes := EncodeHeader(h);
    assert bytes[..4] == h.magic;
    assert bytes[11..16] == h.padding;
  }

  /** isValidHeader: the first four bytes are 'N', 'E', 'S', 0x1A. */
  predicate IsValidHeader(h: Header)
  {
    |h.magic| == 4 && h.magic[0] == 'N' as int && h.magic[1] == 'E' as int
    && h.magic[2] == 'S' as int && h.magic[3] == 0x1A
  }

  /** Validity is decided by bytes 0-3 of the file alone: it holds iff they
      are the magic number, whatever bytes 4-15 hold. */
  lemma ValidHeaderIsMagic(bytes: seq<Byte>)
    requires |bytes| >= HeaderSize
    ensures IsValidHeader(ParseHeader(bytes)) <==> bytes[..4] == Magic
  {
    var h := ParseHeader(bytes);
    assert h.magic == bytes[..4];
    if bytes[..4] == Magic {
      assert h.magic[0] == Magic[0] && h.magic[1] == Magic[1] && h.magic[2] == Magic[2] && h.magic[3] == Magic[3];
    }
  }

  /** The PRG and CHR sizes in bytes. */
  function PrgSize(h: Header): (n: nat)
    ensures n % PrgUnit == 0 && n / PrgUnit == h.prgRomSize
  {
    h.prgRomSize * PrgUnit
  }

  function ChrSize(h: Header): (n: nat)
    ensures n % ChrUnit == 0 && n / ChrUnit == h.chrRomSize
  {
    h.chrRomSize * ChrUnit
  }

  /** The NESROM object: its PRG and CHR buffers (empty until allocated)
      and the NROM-128 mirroring flag of ROM.h, which `load` never sets. */
  datatype NesRom = NesRom(prg: seq<Byte>, chr: seq<Byte>, mirrored: bool)

  /** A value-initialised NESROM: no buffers, not mirrored. */
  const EmptyRom: NesRom := NesRom([], [], false)

  /** Files `load` reads in full: the header is complete and, when it is
      valid, the PRG and CHR data it announces follow it. The source reads
      short files into uninitialised buffers without noticing, so this is
      what it demands of its input. */
  predicate Complete(bytes: seq<Byte>)
  {
    |bytes| >= HeaderSize &&
    (IsValidHeader(ParseHeader(bytes)) ==>
       |bytes| >= HeaderSize + PrgSize(ParseHeader(bytes)) + ChrSize(ParseHeader(bytes)))
  }

  /** NESROM::load. Returns false, leaving the object untouched, when the
      file cannot be opened or the header is invalid. Otherwise the PRG
      buffer is replaced by the bytes after the header and, only when the
      header announces CHR ROM, the CHR buffer by the bytes after the PRG. */
  function Load(rom: NesRom, file: Option<seq<Byte>>): (r: (bool, NesRom))
    requires file.Some? ==> Complete(file.value)
    ensures r.0 <==> file.Some? && IsValidHeader(ParseHeader(file.value))
    ensures !r.0 ==> r.1 == rom
    ensures r.0 ==> |r.1.prg| == PrgSize(ParseHeader(file.value))
    ensures r.0 && ParseHeader(file.value).chrRomSize > 0 ==>
              |r.1.chr| == ChrSize(ParseHeader(file.value))
    ensures r.0 && ParseHeader(file.value).chrRomSize == 0 ==> r.1.chr == rom.chr
    ensures r.1.mirrored == rom.mirrored
  {
    match file
    case None => (false, rom)
    case Some(bytes) =>
      var header := ParseHeader(bytes);
      if !IsValidHeader(header) then (false, rom)
      else
        var prgEnd := HeaderSize + PrgSize(header);
        var chrEnd := prgEnd + ChrSize(header);
        var prg := bytes[HeaderSize..prgEnd];
        var chr := if ChrSize(header) > 0 then bytes[prgEnd..chrEnd] else rom.chr;
        (true, rom.(prg := prg, chr := chr))
  }

  /** The board choice the `mirrored` flag of ROM.h stands for: NROM-128,
      one 16 KiB PRG bank seen twice, versus NROM-256. `load` never
      assigns the flag and `detect_mapper` has no definition, so a loaded
      cartridge always reads as NROM-256; this is the assignment the flag's
      comment and load_rom's two branches call for. */
  function DetectMapper(rom: NesRom): (r: NesRom)
    ensures r.mirrored <==> |rom.prg| == PrgUnit
    ensures r.prg == rom.prg && r.chr == rom.chr
  {
    rom.(mirrored := |rom.prg| == PrgUnit)
  }

  /** The file an iNES writer produces from a header and the two ROMs. */
  function Encode(h: Header, prg: seq<Byte>, chr: seq<Byte>): (bytes: seq<Byte>)
    requires WellFormed(h)
    ensures |bytes| == HeaderSize + |prg| + |chr|
  {
    EncodeHeader(h) + prg + chr
  }

  /** Loading an encoded file recovers the PRG and CHR data exactly (CHR
      only when the header announces some), whatever trails the file. */
  lemma LoadEncode(rom: NesRom, h: Header, prg: seq<Byte>, chr: seq<Byte>, trailer: seq<Byte>)
    requires WellFormed(h) && IsValidHeader(h)
    requires |prg| == PrgSize(h) && |chr| == ChrSize(h)
    ensures Complete(Encode(h, prg, chr) + trailer)
    ensures Load(rom, Some(Encode(h, prg, chr) + trailer))
              == (true, rom.(prg := prg, chr := if |chr| > 0 then chr else rom.chr))
  {
    var bytes := Encode(h, prg, chr) + trailer;
    assert bytes[..HeaderSize] == EncodeHeader(h);
    ParseEncode(h);
    assert ParseHeader(bytes) == h;
    assert bytes[HeaderSize..HeaderSize + |prg|] == prg;
    assert bytes[HeaderSize + |prg|..HeaderSize + |prg| + |chr|] == chr;
  }

  /** An invalid header fails the load whatever follows it. */
  lemma LoadRejectsInvalid(rom: NesRom, bytes: seq<Byte>)
    requires |bytes| >= HeaderSize && bytes[..4] != Magic
    ensures Complete(bytes)
    ensures Load(rom, Some(bytes)) == (false, rom)
  {
    ValidHeaderIsMagic(bytes);
  }

  /** readMemoryPRG / readMemoryCHR: unchecked reads, so the address must
      be inside the buffer. */
  function ReadMemoryPrg(rom: NesRom, address: Word): Byte
    requires address < |rom.prg|
  {
    rom.prg[address]
  }

  function ReadMemoryChr(rom: NesRom, address: Word): Byte
    requires address < |rom.chr|
  {
    rom.chr[address]
  }

  /** After loading a file, PRG address `i` reads the `i`-th byte after the
      header and CHR address `i` the `i`-th byte after the PRG data. */
  lemma LoadThenRead(rom: NesRom, bytes: seq<Byte>, address: Word)
    requires Complete(bytes) && IsValidHeader(ParseHeader(bytes))
    ensures var h := ParseHeader(bytes);
            var loaded := Load(rom, Some(bytes)).1;
            && (address < PrgSize(h) ==> ReadMemoryPrg(loaded, address) == bytes[HeaderSize + address])
            && (address < ChrSize(h) ==>
                  ReadMemoryChr(loaded, address) == bytes[HeaderSize + PrgSize(h) + address])
  {
  }
}
