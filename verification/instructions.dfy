/**
  The instructions of CPU.cpp, its 256-entry instruction table and the
  fetch-decode-execute step. Each instruction receives the effective
  address its addressing mode produced and returns the next CPU state.
*/
module Instructions {
  import opened Wrappers
  import opened Cpu
  import opened Addressing

  datatype Op =
    | LDA | JMP | JSR | RTS | BRK | RTI
    | PHA | PLA | PHP | PLP | CLI | SEI
    | BEQ | BNE | BCC | BCS | BMI | BPL | BVC | BVS
    | CLC | SEC | ASL | LSR | ROL | ROR
    | CMP | CPX | CPY | NOP | CLD | SED | CLV

  /** One populated slot of the instruction table. */
  datatype Instruction = Instruction(op: Op, mode: Mode)

  /** initInstructionTable: the populated opcodes; every other slot holds
      null pointers. */
  function Decode(opcode: Byte): Option<Instruction>
  {
    match opcode
    case 0xA9 => Some(Instruction(LDA, Immediate))
    case 0xA5 => Some(Instruction(LDA, ZeroPage))
    case 0xB5 => Some(Instruction(LDA, ZeroPageX))
    case 0xAD => Some(Instruction(LDA, Absolute))
    case 0xBD => Some(Instruction(LDA, AbsoluteX))
    case 0xB9 => Some(Instruction(LDA, AbsoluteY))
    case 0xA1 => Some(Instruction(LDA, IndirectX))
    case 0xB1 => Some(Instruction(LDA, IndirectY))
    case 0x4C => Some(Instruction(JMP, Absolute))
    case 0x6C => Some(Instruction(JMP, IndirectJmp))
    case 0x20 => Some(Instruction(JSR, Absolute))
    case 0x60 => Some(Instruction(RTS, Implied))
    case 0x00 => Some(Instruction(BRK, Implied))
    case 0x40 => Some(Instruction(RTI, Implied))
    case 0x48 => Some(Instruction(PHA, Implied))
    case 0x68 => Some(Instruction(PLA, Implied))
    case 0x08 => Some(Instruction(PHP, Implied))
    case 0x28 => Some(Instruction(PLP, Implied))
    case 0x58 => Some(Instruction(CLI, Implied))
    case 0x78 => Some(Instruction(SEI, Implied))
    case 0xF0 => Some(Instruction(BEQ, Relative))
    case 0xD0 => Some(Instruction(BNE, Relative))
    case 0x90 => Some(Instruction(BCC, Relative))
    case 0xB0 => Some(Instruction(BCS, Relative))
    case 0x30 => Some(Instruction(BMI, Relative))
    case 0x10 => Some(Instruction(BPL, Relative))
    case 0x50 => Some(Instruction(BVC, Relative))
    case 0x70 => Some(Instruction(BVS, Relative))
    case 0x18 => Some(Instruction(CLC, Implicit))
    case 0x38 => Some(Instruction(SEC, Implicit))
    case 0x0A => Some(Instruction(ASL, Accumulator))
    case 0x06 => Some(Instruction(ASL, ZeroPage))
    case 0x16 => Some(Instruction(ASL, ZeroPageX))
    case 0x0E => Some(Instruction(ASL, Absolute))
    case 0x1E => Some(Instruction(ASL, AbsoluteX))
    case 0x4A => Some(Instruction(LSR, Accumulator))
    case 0x46 => Some(Instruction(LSR, ZeroPage))
    case 0x56 => Some(Instruction(LSR, ZeroPageX))
    case 0x4E => Some(Instruction(LSR, Absolute))
    case 0x5E => Some(Instruction(LSR, AbsoluteX))
    case 0x2A => Some(Instruction(ROL, Accumulator))
    case 0x26 => Some(Instruction(ROL, ZeroPage))
    case 0x36 => Some(Instruction(ROL, ZeroPageX))
    case 0x2E => Some(Instruction(ROL, Absolute))
    case 0x3E => Some(Instruction(ROL, AbsoluteX))
    case 0x6A => Some(Instruction(ROR, Accumulator))
    case 0x66 => Some(Instruction(ROR, ZeroPage))
    case 0x76 => Some(Instruction(ROR, ZeroPageX))
    case 0x6E => Some(Instruction(ROR, Absolute))
    case 0x7E => Some(Instruction(ROR, AbsoluteX))
    case 0xC9 => Some(Instruction(CMP, Immediate))
    case 0xC5 => Some(Instruction(CMP, ZeroPage))
    case 0xD5 => Some(Instruction(CMP, ZeroPageX))
    case 0xCD => Some(Instruction(CMP, Absolute))
    case 0xDD => Some(Instruction(CMP, AbsoluteX))
    case 0xD9 => Some(Instruction(CMP, AbsoluteY))
    case 0xC1 => Some(Instruction(CMP, IndirectX))
    case 0xD1 => Some(Instruction(CMP, IndirectY))
    case 0xE0 => Some(Instruction(CPX, Immediate))
    case 0xE4 => Some(Instruction(CPX, ZeroPage))
    case 0xEC => Some(Instruction(CPX, Absolute))
    case 0xC0 => Some(Instruction(CPY, Immediate))
    case 0xC4 => Some(Instruction(CPY, ZeroPage))
    case 0xCC => Some(Instruction(CPY, Absolute))
    case 0xEA => Some(Instruction(NOP, Implicit))
    case 0xD8 => Some(Instruction(CLD, Implicit))
    case 0xF8 => Some(Instruction(SED, Implicit))
    case 0xB8 => Some(Instruction(CLV, Implicit))
    case _ => None
  }

  // ------------------------------------------------------------ Loads and jumps

  /** LDA: loads A and, unlike the 6502, updates no flag. */
  function Lda(st: State, address: Word): (r: State)
    ensures r.a == ReadMemory(st.mem, address)
    ensures r.(a := st.a) == st
  {
    st.(a := ReadMemory(st.mem, address))
  }

  /** JSR: PC (already past the operand) is raised by a further 2, pushed
      with stack_push16, and replaced by the target. */
  function Jsr(st: State, address: Word): (r: State)
    ensures r.pc == address
    ensures r.s == Dec8(Dec8(st.s))
    ensures st.s != 1 ==> ReadMemory(r.mem, StackAddress(r.s)) == Hi(Wrap16(st.pc + 2))
    ensures st.s == 1 ==> ReadMemory(r.mem, 0x00FF) == Hi(Wrap16(st.pc + 2))
    ensures ReadMemory(r.mem, StackAddress(Dec8(st.s))) == Lo(Wrap16(st.pc + 2))
    ensures forall b :: b != StackAddress(Dec8(st.s)) && b != StackAddress(Dec8(st.s)) - 1 ==>
              ReadMemory(r.mem, b) == ReadMemory(st.mem, b)
    ensures r.a == st.a && r.x == st.x && r.y == st.y && r.p == st.p
  {
    var pc := Wrap16(st.pc + 2);
    Push16(st.(pc := pc), pc).(pc := address)
  }

  /** RTS: pops the high byte, then the low byte, and resumes one past that word. */
  function Rts(st: State): (r: State)
    ensures r.s == Inc8(Inc8(st.s))
    ensures Wrap16(r.pc - 1) == Word16(ReadMemory(st.mem, StackAddress(Inc8(st.s))),
                                       ReadMemory(st.mem, StackAddress(st.s)))
    ensures r.(pc := st.pc, s := st.s) == st
  {
    var hi := ReadMemory(st.mem, StackAddress(st.s));
    var lo := ReadMemory(st.mem, StackAddress(Inc8(st.s)));
    var w := Word16(lo, hi);
    WrapAddSub(w, 1);
    st.(s := Inc8(Inc8(st.s)), pc := Wrap16(w + 1))
  }

  /** BRK: pushes PC + 2, then P with B set, then sets I, clears B and
      loads PC from the vector at 0xFFFE/0xFFFF. */
  function Brk(st: State): (r: State)
    ensures r.s == Dec8(Dec8(Dec8(st.s)))
    ensures StatusOf(ReadMemory(r.mem, StackAddress(r.s))) == SetFlag(st.p, Break, true)
    ensures st.s != 1 ==> ReadMemory(r.mem, StackAddress(Dec8(Dec8(st.s)))) == Hi(Wrap16(st.pc + 2))
    ensures st.s == 1 ==> ReadMemory(r.mem, 0x00FF) == Hi(Wrap16(st.pc + 2))
    ensures ReadMemory(r.mem, StackAddress(Dec8(st.s))) == Lo(Wrap16(st.pc + 2))
    ensures forall b :: b != StackAddress(Dec8(st.s)) && b != StackAddress(Dec8(st.s)) - 1 && b != StackAddress(r.s) ==>
              ReadMemory(r.mem, b) == ReadMemory(st.mem, b)
    ensures r.pc == Word16(ReadMemory(st.mem, 0xFFFE), ReadMemory(st.mem, 0xFFFF))
    ensures GetFlag(r.p, InterruptDisable) == 1 && GetFlag(r.p, Break) == 0
    ensures forall g :: g != InterruptDisable && g != Break ==> GetFlag(r.p, g) == GetFlag(st.p, g)
    ensures r.a == st.a && r.x == st.x && r.y == st.y
  {
    var pc := Wrap16(st.pc + 2);
    var saved := Push16(st.(pc := pc), pc);
    var p := SetFlag(saved.p, Break, true);
    var pushed := Push(saved.(p := p), StatusByte(p));
    pushed.(p := SetFlag(SetFlag(p, InterruptDisable, true), Break, false),
            pc := ReadWord(pushed.mem, IrqVector))
  }

  /** RTI: pops P (then clears B and sets U), then the high and low bytes of PC. */
  function Rti(st: State): (r: State)
    ensures r.s == Inc8(Inc8(Inc8(st.s)))
    ensures GetFlag(r.p, Break) == 0 && GetFlag(r.p, Unused) == 1
    ensures forall g :: g != Break && g != Unused ==>
              GetFlag(r.p, g) == GetFlag(StatusOf(ReadMemory(st.mem, StackAddress(st.s))), g)
    ensures r.pc == Word16(ReadMemory(st.mem, StackAddress(Inc8(Inc8(st.s)))),
                           ReadMemory(st.mem, StackAddress(Inc8(st.s))))
    ensures r.a == st.a && r.x == st.x && r.y == st.y && r.mem == st.mem
  {
    var (flags, s1) := Pop(st);
    var p := SetFlag(SetFlag(StatusOf(flags), Break, false), Unused, true);
    var (hi, s2) := Pop(s1.(p := p));
    var (lo, s3) := Pop(s2);
    s3.(pc := Word16(lo, hi))
  }

  // ------------------------------------------------------------ Stack instructions

  /** PLA: pops A and sets Z and N from it. */
  function Pla(st: State): (r: State)
    ensures r.a == ReadMemory(st.mem, StackAddress(st.s)) && r.s == Inc8(st.s)
    ensures GetFlag(r.p, Zero) == 1 <==> r.a == 0
    ensures GetFlag(r.p, Negative) == 1 <==> r.a >= 0x80
    ensures forall g :: g != Zero && g != Negative ==> GetFlag(r.p, g) == GetFlag(st.p, g)
    ensures r.(a := st.a, s := st.s, p := st.p) == st
  {
    var (v, s1) := Pop(st);
    s1.(a := v, p := SetFlag(SetFlag(s1.p, Zero, v == 0), Negative, v >= 0x80))
  }

  /** PHP: pushes P with B and U set; afterwards P keeps U set and B clear. */
  function Php(st: State): (r: State)
    ensures r.s == Dec8(st.s)
    ensures StatusOf(ReadMemory(r.mem, StackAddress(r.s))) == SetFlag(SetFlag(st.p, Break, true), Unused, true)
    ensures GetFlag(r.p, Break) == 0 && GetFlag(r.p, Unused) == 1
    ensures forall g :: g != Break && g != Unused ==> GetFlag(r.p, g) == GetFlag(st.p, g)
    ensures forall b :: b != StackAddress(r.s) ==> ReadMemory(r.mem, b) == ReadMemory(st.mem, b)
    ensures r.(s := st.s, p := st.p, mem := st.mem) == st
  {
    var p := SetFlag(SetFlag(st.p, Break, true), Unused, true);
    var pushed := Push(st.(p := p), StatusByte(p));
    pushed.(p := SetFlag(p, Break, false))
  }

  /** PLP: pops P, then sets U and clears B. */
  function Plp(st: State): (r: State)
    ensures r.s == Inc8(st.s)
    ensures GetFlag(r.p, Break) == 0 && GetFlag(r.p, Unused) == 1
    ensures forall g :: g != Break && g != Unused ==>
              GetFlag(r.p, g) == GetFlag(StatusOf(ReadMemory(st.mem, StackAddress(st.s))), g)
    ensures r.(s := st.s, p := st.p) == st
  {
    var (v, s1) := Pop(st);
    s1.(p := SetFlag(SetFlag(StatusOf(v), Unused, true), Break, false))
  }

  // ------------------------------------------------------------ Branches

  /** The flag test of each branch instruction. */
  function BranchTaken(op: Op, p: bv8): bool
    requires op in {BEQ, BNE, BCC, BCS, BMI, BPL, BVC, BVS}
  {
    match op
    case BEQ => GetFlag(p, Zero) == 1
    case BNE => GetFlag(p, Zero) == 0
    case BCS => GetFlag(p, Carry) == 1
    case BCC => GetFlag(p, Carry) == 0
    case BMI => GetFlag(p, Negative) == 1
    case BPL => GetFlag(p, Negative) == 0
    case BVS => GetFlag(p, Overflow) == 1
    case BVC => GetFlag(p, Overflow) == 0
  }

  /** A branch reads its signed offset from the address Relative produced
      and, when taken, sets PC to PC + 2 + offset (mod 2^16). */
  function Branch(st: State, taken: bool, address: Word): (r: State)
    ensures !taken ==> r == st
    ensures taken ==> Wrap16(r.pc - st.pc - 2) == Wrap16(Signed(ReadMemory(st.mem, address)))
    ensures r.(pc := st.pc) == st
  {
    if taken then
      var pc := Wrap16(st.pc + 2 + Signed(ReadMemory(st.mem, address)));
      WrapAddSub(Wrap16(st.pc + 2 + Signed(ReadMemory(st.mem, address))), -(st.pc + 2));
      st.(pc := pc)
    else
      st
  }

  // ------------------------------------------------------------ Shifts and rotates

  /** The byte a shift works on: A when the address is the 0xFFFF marker,
      memory otherwise. */
  function ShiftInput(st: State, address: Word): Byte
  {
    if address == AccumulatorMarker then st.a else ReadMemory(st.mem, address)
  }

  /** Stores a shift result: into A for the marker, otherwise the original
      and then the shifted value are written to memory. */
  function ShiftOutput(st: State, address: Word, result: Byte): (r: State)
    ensures ShiftInput(r, address) == result
    ensures address == AccumulatorMarker ==> r == st.(a := result)
    ensures address != AccumulatorMarker ==>
              && r.a == st.a
              && forall b :: b != address ==> ReadMemory(r.mem, b) == ReadMemory(st.mem, b)
    ensures r.x == st.x && r.y == st.y && r.s == st.s && r.pc == st.pc && r.p == st.p
  {
    if address == AccumulatorMarker then st.(a := result)
    else
      var original := ShiftInput(st, address);
      st.(mem := WriteMemory(WriteMemory(st.mem, address, original), address, result))
  }

  /** What a shift leaves alone: every flag but C, N and Z, the registers
      other than A, and memory except the shifted cell (all of memory in
      accumulator mode, A otherwise). */
  predicate ShiftFrame(st: State, address: Word, r: State)
  {
    && (forall g :: g !in {Carry, Negative, Zero} ==> GetFlag(r.p, g) == GetFlag(st.p, g))
    && r.x == st.x && r.y == st.y && r.s == st.s && r.pc == st.pc
    && (address == AccumulatorMarker ==> r.mem == st.mem)
    && (address != AccumulatorMarker ==>
          && r.a == st.a
          && forall b :: b != address ==> ReadMemory(r.mem, b) == ReadMemory(st.mem, b))
  }

  /** The C, N and Z updates shared by the shift instructions, in the
      source's order. */
  function ShiftFlags(p: bv8, carry: bool, negative: bool, result: Byte): (r: bv8)
    ensures GetFlag(r, Carry) == 1 <==> carry
    ensures GetFlag(r, Negative) == 1 <==> negative
    ensures GetFlag(r, Zero) == 1 <==> result == 0
    ensures forall g :: g !in {Carry, Negative, Zero} ==> GetFlag(r, g) == GetFlag(p, g)
  {
    SetFlag(SetFlag(SetFlag(p, Carry, carry), Negative, negative), Zero, result == 0)
  }

  /** `value << 1` truncated to 8 bits: bit 7 is dropped. */
  function ShiftLeft(v: Byte): (r: Byte)
    ensures r == Wrap8(2 * v)
  {
    if v >= 0x80 then 2 * v - 0x100 else 2 * v
  }

  /** ASL: bit 7 goes to C and a 0 enters bit 0, so 2 * value equals
      result + 256 * C. N is bit 7 of the result. */
  function Asl(st: State, address: Word): (r: State)
    ensures var v := ShiftInput(st, address);
            var result := ShiftInput(r, address);
            && 2 * v == result + 0x100 * GetFlag(r.p, Carry)
            && (GetFlag(r.p, Negative) == 1 <==> result >= 0x80)
            && (GetFlag(r.p, Zero) == 1 <==> result == 0)
    ensures ShiftFrame(st, address, r)
  {
    var v := ShiftInput(st, address);
    var result := ShiftLeft(v);
    ShiftOutput(st, address, result).(p := ShiftFlags(st.p, v >= 0x80, result >= 0x80, result))
  }

  /** LSR: bit 0 goes to C and a 0 enters bit 7, so value equals
      2 * result + C, and N is always cleared. */
  function Lsr(st: State, address: Word): (r: State)
    ensures var v := ShiftInput(st, address);
            var result := ShiftInput(r, address);
            && v == 2 * result + GetFlag(r.p, Carry)
            && GetFlag(r.p, Negative) == 0
            && (GetFlag(r.p, Zero) == 1 <==> result == 0)
    ensures ShiftFrame(st, address, r)
  {
    var v := ShiftInput(st, address);
    var result := v / 2;
    ShiftOutput(st, address, result).(p := ShiftFlags(st.p, v % 2 == 1, result >= 0x80, result))
  }

  /** ROL: a 9-bit rotation through the carry, so 2 * value + C_in equals
      result + 256 * C_out. N is bit 7 of the result. */
  function Rol(st: State, address: Word): (r: State)
    ensures var v := ShiftInput(st, address);
            var result := ShiftInput(r, address);
            && 2 * v + GetFlag(st.p, Carry) == result + 0x100 * GetFlag(r.p, Carry)
            && (GetFlag(r.p, Negative) == 1 <==> result >= 0x80)
            && (GetFlag(r.p, Zero) == 1 <==> result == 0)
    ensures ShiftFrame(st, address, r)
  {
    var v := ShiftInput(st, address);
    var shifted := ShiftLeft(v);
    var negative := shifted >= 0x80;
    var result := if GetFlag(st.p, Carry) == 1 then shifted + 1 else shifted;
    ShiftOutput(st, address, result).(p := ShiftFlags(st.p, v >= 0x80, negative, result))
  }

  /** ROR: a 9-bit rotation through the carry, so value + 256 * C_in equals
      2 * result + C_out. N is taken from the shifted value before the carry
      enters bit 7, so it is always cleared. */
  function Ror(st: State, address: Word): (r: State)
    ensures var v := ShiftInput(st, address);
            var result := ShiftInput(r, address);
            && v + 0x100 * GetFlag(st.p, Carry) == 2 * result + GetFlag(r.p, Carry)
            && GetFlag(r.p, Negative) == 0
            && (GetFlag(r.p, Zero) == 1 <==> result == 0)
    ensures ShiftFrame(st, address, r)
  {
    var v := ShiftInput(st, address);
    var shifted := v / 2;
    var negative := shifted >= 0x80;
    var result := if GetFlag(st.p, Carry) == 1 then shifted + 0x80 else shifted;
    ShiftOutput(st, address, result).(p := ShiftFlags(st.p, v % 2 == 1, negative, result))
  }

  // ------------------------------------------------------------ Compares

  /** CMP / CPX / CPY: compares a register with the byte at the address.
      Only C, Z and N change. */
  function Compare(st: State, register: Byte, address: Word): (r: State)
    ensures var v := ReadMemory(st.mem, address);
            && (GetFlag(r.p, Carry) == 1 <==> register >= v)
            && (GetFlag(r.p, Zero) == 1 <==> register == v)
            && (GetFlag(r.p, Negative) == 1 <==> (register - v) % 0x100 >= 0x80)
    ensures forall g :: g !in {Carry, Negative, Zero} ==> GetFlag(r.p, g) == GetFlag(st.p, g)
    ensures r.(p := st.p) == st
  {
    var v := ReadMemory(st.mem, address);
    var result := Wrap8(register - v);
    st.(p := SetFlag(SetFlag(SetFlag(st.p, Carry, register >= v), Negative, result >= 0x80), Zero, register == v))
  }

  // ------------------------------------------------------------ Dispatch

  /** Runs one instruction on the effective address its mode produced. */
  function Perform(op: Op, st: State, address: Word): State
  {
    match op
    case LDA => Lda(st, address)
    case JMP => st.(pc := address)
    case JSR => Jsr(st, address)
    case RTS => Rts(st)
    case BRK => Brk(st)
    case RTI => Rti(st)
    case PHA => Push(st, st.a)
    case PLA => Pla(st)
    case PHP => Php(st)
    case PLP => Plp(st)
    case CLI => st.(p := SetFlag(st.p, InterruptDisable, false))
    case SEI => st.(p := SetFlag(st.p, InterruptDisable, true))
    case BEQ => Branch(st, BranchTaken(op, st.p), address)
    case BNE => Branch(st, BranchTaken(op, st.p), address)
    case BCC => Branch(st, BranchTaken(op, st.p), address)
    case BCS => Branch(st, BranchTaken(op, st.p), address)
    case BMI => Branch(st, BranchTaken(op, st.p), address)
    case BPL => Branch(st, BranchTaken(op, st.p), address)
    case BVC => Branch(st, BranchTaken(op, st.p), address)
    case BVS => Branch(st, BranchTaken(op, st.p), address)
    case CLC => st.(p := SetFlag(st.p, Carry, false))
    case SEC => st.(p := SetFlag(st.p, Carry, true))
    case ASL => Asl(st, address)
    case LSR => Lsr(st, address)
    case ROL => Rol(st, address)
    case ROR => Ror(st, address)
    case CMP => Compare(st, st.a, address)
    case CPX => Compare(st, st.x, address)
    case CPY => Compare(st, st.y, address)
    case NOP => st
    case CLD => st.(p := SetFlag(st.p, Decimal, false))
    case SED => st.(p := SetFlag(st.p, Decimal, true))
    case CLV => st.(p := SetFlag(st.p, Overflow, false))
  }

  /** execute: fetches the opcode at PC (PC + 1), lets its addressing mode
      read the operand and runs the instruction. An opcode whose table slot
      is empty calls through a null pointer in the source, so it is excluded. */
  function Execute(st: State): State
    requires Decode(ReadMemory(st.mem, st.pc)).Some?
  {
    Run(Decode(ReadMemory(st.mem, st.pc)).value, st)
  }

  /** The part of execute after the table lookup: the entry's addressing
      mode reads its operand after the opcode, then its operation runs on
      the effective address. */
  function Run(ins: Instruction, st: State): State
  {
    Perform(ins.op, st.(pc := OperandOf(ins.mode, st).pc), OperandOf(ins.mode, st).address)
  }

  /** The operand an addressing mode reads after the opcode byte. */
  function OperandOf(mode: Mode, st: State): Operand
  {
    Resolve(mode, st.(pc := Wrap16(st.pc + 1)))
  }

  // ------------------------------------------------------------ What each instruction touches

  /** The instructions that set PC themselves rather than run on to the
      next opcode. */
  predicate ControlFlow(op: Op)
  {
    op in {JMP, JSR, RTS, BRK, RTI, BEQ, BNE, BCC, BCS, BMI, BPL, BVC, BVS}
  }

  /** The instructions that move the stack pointer. */
  predicate UsesStack(op: Op)
  {
    op in {JSR, RTS, BRK, RTI, PHA, PLA, PHP, PLP}
  }

  /** The instructions that may store into memory. */
  predicate WritesMemory(op: Op)
  {
    op in {JSR, BRK, PHA, PHP, ASL, LSR, ROL, ROR}
  }

  /** The instructions that may load A. */
  predicate WritesA(op: Op)
  {
    op in {LDA, PLA, ASL, LSR, ROL, ROR}
  }

  /** The instructions that may change the status register. */
  predicate WritesFlags(op: Op)
  {
    op in {BRK, RTI, PLA, PHP, PLP, CLI, SEI, CLC, SEC, ASL, LSR, ROL, ROR, CMP, CPX, CPY, CLD, SED, CLV}
  }

  /** The operand bytes each addressing mode reads after the opcode. */
  function OperandLength(mode: Mode): nat
  {
    match mode
    case Implicit => 0
    case Accumulator => 0
    case Implied => 0
    case Immediate => 1
    case Relative => 1
    case ZeroPage => 1
    case ZeroPageX => 1
    case ZeroPageY => 1
    case IndirectX => 1
    case IndirectY => 1
    case Absolute => 2
    case AbsoluteX => 2
    case AbsoluteY => 2
    case Indirect => 2
    case IndirectJmp => 2
  }

  /** `r` differs from `st` only where an instruction of `op`'s kind may
      write: never in X or Y, and in PC, S, memory, A and P only for the
      instructions that set PC, use the stack, store, load A or set flags. */
  predicate Framed(op: Op, st: State, r: State)
  {
    && r.x == st.x && r.y == st.y
    && (!ControlFlow(op) ==> r.pc == st.pc)
    && (!UsesStack(op) ==> r.s == st.s)
    && (!WritesMemory(op) ==> r.mem == st.mem)
    && (!WritesA(op) ==> r.a == st.a)
    && (!WritesFlags(op) ==> r.p == st.p)
  }

  /** No instruction of the table touches X or Y, and each of the others
      leaves PC, S, memory, A and P alone unless it is of the kind that
      changes them. */
  lemma PerformFrame(op: Op, st: State, address: Word)
    ensures Framed(op, st, Perform(op, st, address))
  {
    if op in {JSR, RTS, BRK, RTI, PHA, PLA, PHP, PLP} {
      StackFrame(op, st, address);
    } else if op in {JMP, BEQ, BNE, BCC, BCS, BMI, BPL, BVC, BVS} {
      JumpFrame(op, st, address);
    } else if op in {ASL, LSR, ROL, ROR, CMP, CPX, CPY} {
      ShiftCompareFrame(op, st, address);
    } else {
      LoadFlagFrame(op, st, address);
    }
  }

  /** The frame of the stack instructions. */
  lemma StackFrame(op: Op, st: State, address: Word)
    requires op in {JSR, RTS, BRK, RTI, PHA, PLA, PHP, PLP}
    ensures Framed(op, st, Perform(op, st, address))
  {
    match op
    case JSR =>
    case RTS =>
    case BRK =>
    case RTI =>
    case PHA =>
    case PLA =>
    case PHP =>
    case PLP =>
    case _ =>
  }

  /** The frame of the jump and the branches. */
  lemma JumpFrame(op: Op, st: State, address: Word)
    requires op in {JMP, BEQ, BNE, BCC, BCS, BMI, BPL, BVC, BVS}
    ensures Framed(op, st, Perform(op, st, address))
  {
    match op
    case JMP =>
    case BEQ =>
    case BNE =>
    case BCC =>
    case BCS =>
    case BMI =>
    case BPL =>
    case BVC =>
    case BVS =>
    case _ =>
  }

  /** The frame of the shifts and compares. */
  lemma ShiftCompareFrame(op: Op, st: State, address: Word)
    requires op in {ASL, LSR, ROL, ROR, CMP, CPX, CPY}
    ensures Framed(op, st, Perform(op, st, address))
  {
    match op
    case ASL =>
    case LSR =>
    case ROL =>
    case ROR =>
    case CMP =>
    case CPX =>
    case CPY =>
    case _ =>
  }

  /** The frame of LDA, NOP and the flag instructions. */
  lemma LoadFlagFrame(op: Op, st: State, address: Word)
    requires op in {LDA, CLI, SEI, CLC, SEC, NOP, CLD, SED, CLV}
    ensures Framed(op, st, Perform(op, st, address))
  {
    match op
    case LDA =>
    case CLI =>
    case SEI =>
    case CLC =>
    case SEC =>
    case NOP =>
    case CLD =>
    case SED =>
    case CLV =>
    case _ =>
  }

  /** Every addressing mode moves PC past exactly its operand bytes. */
  lemma ResolveLength(mode: Mode, st: State)
    ensures Resolve(mode, st).pc == Wrap16(st.pc + OperandLength(mode))
  {
  }

  /** One execute step, with the empty table slot as an explicit failure. */
  function Step(st: State): (r: Option<State>)
    ensures r.Some? <==> Decode(ReadMemory(st.mem, st.pc)).Some?
    ensures r.Some? ==> r.value == Execute(st)
  {
    if Decode(ReadMemory(st.mem, st.pc)).Some? then Some(Execute(st)) else None
  }

  /** A table entry keeps the frame of its instruction, counted from the
      PC its addressing mode leaves. */
  lemma RunFrame(ins: Instruction, st: State)
    ensures Framed(ins.op, st.(pc := OperandOf(ins.mode, st).pc), Run(ins, st))
  {
    PerformFrame(ins.op, st.(pc := OperandOf(ins.mode, st).pc), OperandOf(ins.mode, st).address);
  }

  /** The addressing mode leaves PC past the opcode and its operand bytes. */
  lemma OperandPc(mode: Mode, st: State)
    ensures OperandOf(mode, st).pc == Wrap16(st.pc + 1 + OperandLength(mode))
  {
    ResolveLength(mode, st.(pc := Wrap16(st.pc + 1)));
    WrapAdd(st.pc + 1, OperandLength(mode));
  }

  /** What one step does, for every opcode of the table at once: an empty
      slot fails; otherwise X and Y are kept, PC moves past the opcode and
      its operand bytes unless the instruction sets PC itself, and S,
      memory, A and P change only for the instructions of the kind that
      change them. */
  lemma StepFrame(st: State)
    ensures Step(st).None? <==> Decode(ReadMemory(st.mem, st.pc)).None?
    ensures Step(st).Some? ==>
              Framed(Decode(ReadMemory(st.mem, st.pc)).value.op,
                     st.(pc := Wrap16(st.pc + 1 + OperandLength(Decode(ReadMemory(st.mem, st.pc)).value.mode))),
                     Step(st).value)
  {
    if Decode(ReadMemory(st.mem, st.pc)).Some? {
      RunFrame(Decode(ReadMemory(st.mem, st.pc)).value, st);
      OperandPc(Decode(ReadMemory(st.mem, st.pc)).value.mode, st);
    }
  }
}
