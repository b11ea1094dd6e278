/**
  The addressing modes of CPU.cpp. Each one reads its operand bytes at PC,
  advances PC past them and yields the effective address the instruction
  will use. Implicit and Accumulator yield the marker 0xFFFF, which the
  shift instructions read as "operate on A"; Implied yields 0.
*/
module Addressing {
  import opened Cpu

  datatype Mode =
    | Implicit | Immediate | Accumulator | Relative
    | ZeroPage | ZeroPageX | ZeroPageY
    | Absolute | AbsoluteX | AbsoluteY
    | Indirect | IndirectX | IndirectY | IndirectJmp
    | Implied

  /** The effective address and the program counter after the operand. */
  datatype Operand = Operand(address: Word, pc: Word)

  /** The address marker meaning "the accumulator" (and "no address"). */
  const AccumulatorMarker: Word := 0xFFFF

  /** The `int8_t` reading of a byte. */
  function Signed(v: Byte): (r: int)
    ensures -0x80 <= r < 0x80
    ensures Wrap8(r) == v
  {
    if v < 0x80 then v else v - 0x100
  }

  /** Immediate: the operand is the byte at PC itself. */
  function ImmediateMode(st: State): (r: Operand)
    ensures r.address == st.pc && ReadMemory(st.mem, r.address) == ReadMemory(st.mem, st.pc)
    ensures r.pc == Wrap16(st.pc + 1)
  {
    Operand(st.pc, Wrap16(st.pc + 1))
  }

  /** Relative: the PC after the offset byte plus the signed offset, modulo 2^16. */
  function RelativeMode(st: State): (r: Operand)
    ensures r.pc == Wrap16(st.pc + 1)
    ensures Wrap16(r.address - r.pc) == Wrap16(Signed(ReadMemory(st.mem, st.pc)))
  {
    var pc := Wrap16(st.pc + 1);
    Operand(Wrap16(pc + Signed(ReadMemory(st.mem, st.pc))), pc)
  }

  /** ZeroPage: the byte at PC is an address in page 0. */
  function ZeroPageMode(st: State): (r: Operand)
    ensures r.address < 0x100 && r.address == ReadMemory(st.mem, st.pc)
    ensures r.pc == Wrap16(st.pc + 1)
  {
    Operand(ReadMemory(st.mem, st.pc), Wrap16(st.pc + 1))
  }

  /** ZeroPageX / ZeroPageY: `(byte + index) & 0xFF`, which never leaves page 0. */
  function ZeroPageIndexed(st: State, index: Byte): (r: Operand)
    ensures r.address < 0x100 && r.address == Wrap8(ReadMemory(st.mem, st.pc) + index)
    ensures r.pc == Wrap16(st.pc + 1)
  {
    Operand((ReadMemory(st.mem, st.pc) + index) % 0x100, Wrap16(st.pc + 1))
  }

  /** Absolute / AbsoluteX / AbsoluteY: the little-endian word at PC, PC + 1
      plus the index register, modulo 2^16; PC advances by 2. */
  function AbsoluteIndexed(st: State, index: Byte): (r: Operand)
    ensures Wrap16(r.address - index) == Word16(ReadMemory(st.mem, st.pc), ReadMemory(st.mem, Wrap16(st.pc + 1)))
    ensures r.pc == Wrap16(st.pc + 2)
  {
    WrapAddSub(ReadWord(st.mem, st.pc), index);
    Operand(Wrap16(ReadWord(st.mem, st.pc) + index), Wrap16(st.pc + 2))
  }

  /** Indirect and the JMP-only IndirectJMP: the word at PC is a pointer and
      the word it points at (second byte at pointer + 1 modulo 2^16, with no
      page-wrap quirk) is the address. */
  function IndirectMode(st: State): (r: Operand)
    ensures var pointer := Word16(ReadMemory(st.mem, st.pc), ReadMemory(st.mem, Wrap16(st.pc + 1)));
            r.address == Word16(ReadMemory(st.mem, pointer), ReadMemory(st.mem, Wrap16(pointer + 1)))
    ensures r.pc == Wrap16(st.pc + 2)
  {
    Operand(ReadWord(st.mem, ReadWord(st.mem, st.pc)), Wrap16(st.pc + 2))
  }

  /** IndirectX: the pointer `(byte + X) & 0xFF` stays in page 0, but its
      second byte is read from pointer + 1, which is 0x0100 for pointer 0xFF. */
  function IndirectXMode(st: State): (r: Operand)
    ensures var pointer := Wrap8(ReadMemory(st.mem, st.pc) + st.x);
            r.address == Word16(ReadMemory(st.mem, pointer), ReadMemory(st.mem, pointer + 1))
    ensures r.pc == Wrap16(st.pc + 1)
  {
    var pointer := Wrap8(ReadMemory(st.mem, st.pc) + st.x);
    Operand(ReadWord(st.mem, pointer), Wrap16(st.pc + 1))
  }

  /** IndirectY: the byte at PC points into page 0; the word there plus Y,
      modulo 2^16. */
  function IndirectYMode(st: State): (r: Operand)
    ensures var pointer := ReadMemory(st.mem, st.pc);
            Wrap16(r.address - st.y) == Word16(ReadMemory(st.mem, pointer), ReadMemory(st.mem, pointer + 1))
    ensures r.pc == Wrap16(st.pc + 1)
  {
    var pointer := ReadMemory(st.mem, st.pc);
    WrapAddSub(ReadWord(st.mem, pointer), st.y);
    Operand(Wrap16(ReadWord(st.mem, pointer) + st.y), Wrap16(st.pc + 1))
  }

  /** Dispatches on the mode as the instruction table's function pointers do. */
  function Resolve(mode: Mode, st: State): (r: Operand)
    ensures mode in {Implicit, Accumulator} ==> r == Operand(AccumulatorMarker, st.pc)
    ensures mode == Implied ==> r == Operand(0, st.pc)
    ensures mode in {Immediate, Relative, ZeroPage, ZeroPageX, ZeroPageY, IndirectX, IndirectY} ==> r.pc == Wrap16(st.pc + 1)
    ensures mode in {Absolute, AbsoluteX, AbsoluteY, Indirect, IndirectJmp} ==> r.pc == Wrap16(st.pc + 2)
    ensures mode in {ZeroPage, ZeroPageX, ZeroPageY} ==> r.address < 0x100
  {
    match mode
    case Implicit => Operand(AccumulatorMarker, st.pc)
    case Accumulator => Operand(AccumulatorMarker, st.pc)
    case Implied => Operand(0, st.pc)
    case Immediate => ImmediateMode(st)
    case Relative => RelativeMode(st)
    case ZeroPage => ZeroPageMode(st)
    case ZeroPageX => ZeroPageIndexed(st, st.x)
    case ZeroPageY => ZeroPageIndexed(st, st.y)
    case Absolute => AbsoluteIndexed(st, 0)
    case AbsoluteX => AbsoluteIndexed(st, st.x)
    case AbsoluteY => AbsoluteIndexed(st, st.y)
    case Indirect => IndirectMode(st)
    case IndirectJmp => IndirectMode(st)
    case IndirectX => IndirectXMode(st)
    case IndirectY => IndirectYMode(st)
  }
}
