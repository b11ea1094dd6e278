/**
  The register file, status flags, 64 KiB memory, page-1 stack, reset and
  interrupt entry of the emulator's 6502 CPU (CPU.cpp).

  Bytes and words are integers in range; the source's `uint8_t`/`uint16_t`
  wrap-around (`S -= 1`, `PC + 2`) is written out with `Wrap8`, `Wrap16`,
  `Inc8` and `Dec8`. The status register is kept as a `bv8` because its
  flag operations are bit masks.
*/
module Cpu {

  /** An unsigned 8-bit value (`uint8_t`). */
  type Byte = b: int | 0 <= b < 0x100
  /** An unsigned 16-bit value (`uint16_t`). */
  type Word = w: int | 0 <= w < 0x10000

  /** Truncation to `uint8_t` / `uint16_t` (Dafny's `%` is never negative). */
  function Wrap8(n: int): Byte { n % 0x100 }
  function Wrap16(n: int): Word { n % 0x10000 }

  /** `uint8_t` increment and decrement, as the stack pointer uses them. */
  function Inc8(b: Byte): (r: Byte)
    ensures r == Wrap8(b + 1)
  {
    if b == 0xFF then 0 else b + 1
  }

  function Dec8(b: Byte): (r: Byte)
    ensures r == Wrap8(b - 1)
  {
    if b == 0 then 0xFF else b - 1
  }

  /** Adding and then subtracting an offset modulo 2^16 is the identity. */
  lemma WrapAddSub(w: Word, k: int)
    ensures Wrap16(Wrap16(w + k) - k) == w
  {
    var q := (w + k) / 0x10000;
    assert Wrap16(w + k) == w + k - q * 0x10000;
    assert Wrap16(w + k) - k == w - q * 0x10000;
  }

  /** Truncating twice is truncating once. */
  lemma WrapAdd(n: int, k: int)
    ensures Wrap16(Wrap16(n) + k) == Wrap16(n + k)
  {
    var q := n / 0x10000;
    assert Wrap16(n) == n - q * 0x10000;
  }

  /** Size of the CPU's flat `std::array` memory. */
  const MemorySize: int := 0x10000

  /** The 64 KiB memory; every 16-bit address is in range. */
  type Memory = m: seq<Byte> | |m| == MemorySize witness seq(MemorySize, _ => 0)

  /** The status register bits, in the order of the source's FLAGS enum. */
  datatype Flag = Carry | Zero | InterruptDisable | Decimal | Break | Unused | Overflow | Negative

  function Mask(f: Flag): bv8
  {
    match f
    case Carry => 0x01
    case Zero => 0x02
    case InterruptDisable => 0x04
    case Decimal => 0x08
    case Break => 0x10
    case Unused => 0x20
    case Overflow => 0x40
    case Negative => 0x80
  }

  /** Registers A, X, Y, S, PC, the status register P (kept as a bit-vector
      for its flag operations) and the memory. */
  datatype State = State(a: Byte, x: Byte, y: Byte, s: Byte, pc: Word, p: bv8, mem: Memory)

  /** A freshly constructed CPU: zero registers, S = 0xFD, P = I + U, zero memory. */
  const PowerOn: State := State(0, 0, 0, 0xFD, 0, 0x24, seq(MemorySize, _ => 0))

  // ------------------------------------------------------------ Flags

  /** The flag as 1 or 0 (getFlag). */
  function GetFlag(p: bv8, f: Flag): Byte
  {
    if p & Mask(f) != 0 then 1 else 0
  }

  /** Sets or clears one bit of the status register (setFlag). The seven
      other bits keep their values. */
  function SetFlag(p: bv8, f: Flag, on: bool): (r: bv8)
    ensures GetFlag(r, f) == if on then 1 else 0
    ensures forall g :: g != f ==> GetFlag(r, g) == GetFlag(p, g)
  {
    if on then p | Mask(f) else p & !Mask(f)
  }

  /** The status register as the byte it is stored as on the stack. */
  function StatusByte(p: bv8): Byte
  {
    p as int
  }

  /** A stack byte loaded into the status register. */
  function StatusOf(b: Byte): (p: bv8)
    ensures forall q :: b == StatusByte(q) ==> p == q
  {
    b as bv8
  }

  // ------------------------------------------------------------ Memory

  /** readMemory: the bounds check of the source always succeeds for a
      16-bit address on a 64 KiB array, so the error value is never returned. */
  function ReadMemory(m: Memory, address: Word): Byte
  {
    m[address]
  }

  /** writeMemory: stores one byte and nothing else. */
  function WriteMemory(m: Memory, address: Word, value: Byte): (r: Memory)
    ensures ReadMemory(r, address) == value
    ensures forall b :: b != address ==> ReadMemory(r, b) == ReadMemory(m, b)
  {
    m[address := value]
  }

  // ------------------------------------------------------------ Words

  /** Little-endian composition `(hi << 8) | lo`. */
  function Word16(lo: Byte, hi: Byte): Word
  {
    hi * 0x100 + lo
  }

  /** Splitting a composed word gives back the two bytes it was made of. */
  lemma WordBytes(lo: Byte, hi: Byte)
    ensures Lo(Word16(lo, hi)) == lo && Hi(Word16(lo, hi)) == hi
  {
  }

  /** A word is the composition of its two bytes. */
  lemma WordOfBytes(w: Word)
    ensures Word16(Lo(w), Hi(w)) == w
  {
  }

  function Lo(w: Word): Byte
  {
    w % 0x100
  }

  function Hi(w: Word): Byte
  {
    w / 0x100
  }

  /** The two bytes of the word at `address` and `address + 1` (mod 2^16). */
  function ReadWord(m: Memory, address: Word): Word
  {
    Word16(ReadMemory(m, address), ReadMemory(m, Wrap16(address + 1)))
  }

  // ------------------------------------------------------------ Stack

  /** Address of stack slot `s` in page 1 (`0x0100 + S`). */
  function StackAddress(s: Byte): Word
  {
    0x0100 + s
  }

  /** stack_push: S is lowered first, then the byte is stored at the new top. */
  function Push(st: State, value: Byte): (r: State)
    ensures r.s == Dec8(st.s)
    ensures ReadMemory(r.mem, StackAddress(r.s)) == value
    ensures forall b :: b != StackAddress(r.s) ==> ReadMemory(r.mem, b) == ReadMemory(st.mem, b)
    ensures r.a == st.a && r.x == st.x && r.y == st.y && r.pc == st.pc && r.p == st.p
  {
    var s := Dec8(st.s);
    st.(s := s, mem := WriteMemory(st.mem, StackAddress(s), value))
  }

  /** stack_push16: the LOW byte is written first, one slot below the old
      top, and the HIGH byte one address below it, so the high byte ends on
      top. The second address is `address - 1` on the 16-bit address, so
      when S is 0x01 on entry it lands at 0x00FF, outside page 1. */
  function Push16(st: State, value: Word): (r: State)
    ensures r.s == Dec8(Dec8(st.s))
    ensures ReadMemory(r.mem, StackAddress(Dec8(st.s))) == Lo(value)
    ensures st.s != 1 ==> ReadMemory(r.mem, StackAddress(r.s)) == Hi(value)
    ensures st.s == 1 ==> ReadMemory(r.mem, 0x00FF) == Hi(value)
    ensures forall b :: b != StackAddress(Dec8(st.s)) && b != StackAddress(Dec8(st.s)) - 1 ==>
              ReadMemory(r.mem, b) == ReadMemory(st.mem, b)
    ensures r.a == st.a && r.x == st.x && r.y == st.y && r.pc == st.pc && r.p == st.p
  {
    var s1 := Dec8(st.s);
    var address := StackAddress(s1);
    var m := WriteMemory(st.mem, address, Lo(value));
    st.(s := Dec8(s1), mem := WriteMemory(m, address - 1, Hi(value)))
  }

  /** stack_pop: reads the byte at the top, then raises S. */
  function Pop(st: State): (r: (Byte, State))
    ensures r.0 == ReadMemory(st.mem, StackAddress(st.s))
    ensures r.1 == st.(s := Inc8(st.s))
  {
    (ReadMemory(st.mem, StackAddress(st.s)), st.(s := Inc8(st.s)))
  }

  // ------------------------------------------------------------ Reset and interrupts

  const ResetVector: Word := 0xFFFC
  const IrqVector: Word := 0xFFFE
  /** The NMI handler "address": the source stores this constant in PC
      instead of reading the vector stored there. */
  const NmiTarget: Word := 0xFFFA

  /** reset: PC from the little-endian reset vector, S = 0xFD, P = I | U.
      A, X, Y and memory are kept. */
  function Reset(st: State): (r: State)
    ensures r.pc == Word16(ReadMemory(st.mem, 0xFFFC), ReadMemory(st.mem, 0xFFFD))
    ensures r.s == 0xFD && r.p == 0x24
    ensures r.a == st.a && r.x == st.x && r.y == st.y && r.mem == st.mem
  {
    var p := SetFlag(SetFlag(0, InterruptDisable, true), Unused, true);
    st.(pc := ReadWord(st.mem, ResetVector), s := 0xFD, p := p)
  }

  /** nmi_interrupt: pushes PC (as stack_push16 does) and P, sets I and
      jumps to the constant 0xFFFA. The pushed P is the one before I is set. */
  function Nmi(st: State): (r: State)
    ensures r.s == Dec8(Dec8(Dec8(st.s)))
    ensures r.pc == 0xFFFA
    ensures GetFlag(r.p, InterruptDisable) == 1
    ensures forall g :: g != InterruptDisable ==> GetFlag(r.p, g) == GetFlag(st.p, g)
    ensures StatusOf(ReadMemory(r.mem, StackAddress(r.s))) == st.p
    ensures st.s != 1 ==> ReadMemory(r.mem, StackAddress(Inc8(r.s))) == Hi(st.pc)
    ensures st.s == 1 ==> ReadMemory(r.mem, 0x00FF) == Hi(st.pc)
    ensures ReadMemory(r.mem, StackAddress(Inc8(Inc8(r.s)))) == Lo(st.pc)
    ensures forall b :: b != StackAddress(Dec8(st.s)) && b != StackAddress(Dec8(st.s)) - 1 && b != StackAddress(r.s) ==>
              ReadMemory(r.mem, b) == ReadMemory(st.mem, b)
    ensures r.a == st.a && r.x == st.x && r.y == st.y
  {
    var pushed := Push(Push16(st, st.pc), StatusByte(st.p));
    pushed.(p := SetFlag(pushed.p, InterruptDisable, true), pc := NmiTarget)
  }

  /** irq_interrupt: ignored while I is set. Otherwise pushes PC, sets I,
      clears B, pushes that P and loads PC from the vector at 0xFFFE/0xFFFF. */
  function Irq(st: State): (r: State)
    ensures GetFlag(st.p, InterruptDisable) == 1 ==> r == st
    ensures GetFlag(st.p, InterruptDisable) == 0 ==>
              && r.s == Dec8(Dec8(Dec8(st.s)))
              && r.pc == Word16(ReadMemory(st.mem, 0xFFFE), ReadMemory(st.mem, 0xFFFF))
              && GetFlag(r.p, InterruptDisable) == 1
              && GetFlag(r.p, Break) == 0
              && (forall g :: g != InterruptDisable && g != Break ==> GetFlag(r.p, g) == GetFlag(st.p, g))
              && StatusOf(ReadMemory(r.mem, StackAddress(r.s))) == r.p
              && (st.s != 1 ==> ReadMemory(r.mem, StackAddress(Inc8(r.s))) == Hi(st.pc))
              && (st.s == 1 ==> ReadMemory(r.mem, 0x00FF) == Hi(st.pc))
              && ReadMemory(r.mem, StackAddress(Inc8(Inc8(r.s)))) == Lo(st.pc)
              && (forall b :: b != StackAddress(Dec8(st.s)) && b != StackAddress(Dec8(st.s)) - 1 && b != StackAddress(r.s) ==>
                    ReadMemory(r.mem, b) == ReadMemory(st.mem, b))
              && r.a == st.a && r.x == st.x && r.y == st.y
  {
    if GetFlag(st.p, InterruptDisable) == 0 then
      var saved := Push16(st, st.pc);
      var p := SetFlag(SetFlag(saved.p, InterruptDisable, true), Break, false);
      var pushed := Push(saved.(p := p), StatusByte(p));
      pushed.(pc := ReadWord(pushed.mem, IrqVector))
    else
      st
  }
}
