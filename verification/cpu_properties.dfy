/**
  Properties relating several CPU operations: stack round trips, subroutine
  and interrupt returns, rotate inverses, the branch pairs, and the
  concrete scenarios the emulator's own test driver asserts.
*/
module CpuProperties {
  import opened Wrappers
  import opened Cpu
  import opened Addressing
  import opened Instructions

  // ------------------------------------------------------------ Stack

  /** stack_push then stack_pop returns the pushed byte and restores S. */
  lemma PushThenPop(st: State, v: Byte)
    ensures Pop(Push(st, v)).0 == v
    ensures Pop(Push(st, v)).1 == st.(mem := Push(st, v).mem)
  {
  }

  /** stack_push16 then two pops yields the high byte, then the low byte,
      and restores S, as long as S is not 0x01 on entry. */
  lemma Push16ThenPopTwice(st: State, v: Word)
    requires st.s != 1
    ensures var (hi, t1) := Pop(Push16(st, v));
            var (lo, t2) := Pop(t1);
            hi == Hi(v) && lo == Lo(v) && Word16(lo, hi) == v && t2.s == st.s
  {
    var t := Push16(st, v);
    assert Inc8(Dec8(Dec8(st.s))) == Dec8(st.s);
    assert Inc8(Dec8(st.s)) == st.s;
    assert Word16(Lo(v), Hi(v)) == v;
  }

  /** With S = 0x01 the high byte of stack_push16 is written to 0x00FF,
      outside page 1, and the first pop reads the untouched slot 0x01FF
      instead. */
  lemma Push16AtPageBottom(st: State, v: Word)
    requires st.s == 1
    ensures ReadMemory(Push16(st, v).mem, 0x00FF) == Hi(v)
    ensures Push16(st, v).s == 0xFF
    ensures Pop(Push16(st, v)).0 == ReadMemory(st.mem, 0x01FF)
  {
  }

  /** PHA then PLA gives A back, restores S, and sets Z and N from A. */
  lemma PhaThenPla(st: State)
    ensures var r := Pla(Push(st, st.a));
            && r.a == st.a && r.s == st.s && r.x == st.x && r.y == st.y && r.pc == st.pc
            && (GetFlag(r.p, Zero) == 1 <==> st.a == 0)
            && (GetFlag(r.p, Negative) == 1 <==> st.a >= 0x80)
  {
    assert Inc8(Dec8(st.s)) == st.s;
  }

  /** PHP then PLP gives P back with B clear and U set, and restores S. */
  lemma PhpThenPlp(st: State)
    ensures Plp(Php(st)).p == SetFlag(SetFlag(st.p, Break, false), Unused, true)
    ensures Plp(Php(st)).s == st.s
  {
    var pushed := SetFlag(SetFlag(st.p, Break, true), Unused, true);
    var h := Php(st);
    assert StatusOf(ReadMemory(h.mem, StackAddress(h.s))) == pushed;
    assert Plp(h).p == SetFlag(SetFlag(pushed, Unused, true), Break, false);
    assert Inc8(Dec8(st.s)) == st.s;
  }

  // ------------------------------------------------------------ Subroutines and interrupts

  /** JSR then RTS restores S and resumes 3 bytes past the PC JSR saw
      (which is already past its operand: the source's extra + 2). */
  lemma JsrThenRts(st: State, target: Word)
    requires st.s != 1
    ensures Rts(Jsr(st, target)).s == st.s
    ensures Rts(Jsr(st, target)).pc == Wrap16(st.pc + 3)
  {
    JsrFrame(st, target);
    var r := Rts(Jsr(st, target));
    ResumeAfter(r.pc, st.pc + 2);
  }

  /** A PC whose predecessor is `n` (mod 2^16) is n + 1 (mod 2^16). */
  lemma ResumeAfter(pc: Word, n: int)
    requires Wrap16(pc - 1) == Wrap16(n)
    ensures pc == Wrap16(n + 1)
  {
    WrapAddSub(pc, -1);
    WrapAdd(n, 1);
  }

  /** The two stack bytes JSR leaves on top compose back into PC + 2. */
  lemma JsrFrame(st: State, target: Word)
    requires st.s != 1
    ensures var j := Jsr(st, target);
            && Word16(ReadMemory(j.mem, StackAddress(Inc8(j.s))), ReadMemory(j.mem, StackAddress(j.s))) == Wrap16(st.pc + 2)
            && Inc8(Inc8(j.s)) == st.s
  {
    var j := Jsr(st, target);
    var pc := Wrap16(st.pc + 2);
    assert Inc8(Dec8(Dec8(st.s))) == Dec8(st.s);
    assert Inc8(Dec8(st.s)) == st.s;
    WordOfBytes(pc);
  }

  /** BRK then RTI restores S, resumes 2 bytes past the PC BRK saw, and
      restores P except that B ends clear and U set. */
  lemma BrkThenRti(st: State)
    requires st.s != 1
    ensures Rti(Brk(st)).s == st.s
    ensures Rti(Brk(st)).pc == Wrap16(st.pc + 2)
    ensures Rti(Brk(st)).p == SetFlag(SetFlag(st.p, Break, false), Unused, true)
  {
    var b := Brk(st);
    ReturnFrame(b, st.s, Wrap16(st.pc + 2), SetFlag(st.p, Break, true));
  }

  /** RTI after an NMI entry restores S and PC and gives P back with B
      clear and U set. */
  lemma NmiThenRti(st: State)
    requires st.s != 1
    ensures Rti(Nmi(st)).s == st.s
    ensures Rti(Nmi(st)).pc == st.pc
    ensures Rti(Nmi(st)).p == SetFlag(SetFlag(st.p, Break, false), Unused, true)
  {
    var n := Nmi(st);
    assert Inc8(n.s) == Dec8(Dec8(st.s)) && Inc8(Inc8(n.s)) == Dec8(st.s);
    ReturnFrame(n, st.s, st.pc, st.p);
  }

  /** RTI after an IRQ entry (I clear) restores S and PC. The P it pops is
      the one pushed after I was set, so I stays set on return; B ends
      clear and U set. */
  lemma IrqThenRti(st: State)
    requires st.s != 1 && GetFlag(st.p, InterruptDisable) == 0
    ensures Rti(Irq(st)).s == st.s
    ensures Rti(Irq(st)).pc == st.pc
    ensures Rti(Irq(st)).p == SetFlag(SetFlag(SetFlag(st.p, InterruptDisable, true), Break, false), Unused, true)
  {
    var n := Irq(st);
    assert n.p == SetFlag(SetFlag(st.p, InterruptDisable, true), Break, false);
    assert Inc8(n.s) == Dec8(Dec8(st.s)) && Inc8(Inc8(n.s)) == Dec8(st.s);
    ReturnFrame(n, st.s, st.pc, n.p);
  }

  /** The frame an interrupt entry leaves three slots below `s` (P on top,
      then the high and the low byte of a PC) is what RTI consumes. */
  lemma ReturnFrame(n: State, s: Byte, pc: Word, q: bv8)
    requires n.s == Dec8(Dec8(Dec8(s)))
    requires StatusOf(ReadMemory(n.mem, StackAddress(n.s))) == q
    requires ReadMemory(n.mem, StackAddress(Dec8(Dec8(s)))) == Hi(pc)
    requires ReadMemory(n.mem, StackAddress(Dec8(s))) == Lo(pc)
    ensures Rti(n).s == s && Rti(n).pc == pc
    ensures Rti(n).p == SetFlag(SetFlag(q, Break, false), Unused, true)
  {
    assert Inc8(n.s) == Dec8(Dec8(s));
    assert Inc8(Inc8(n.s)) == Dec8(s);
    assert Inc8(Inc8(Inc8(n.s))) == s;
    WordOfBytes(pc);
  }

  // ------------------------------------------------------------ Shifts

  /** ROL then ROR on the same operand restores the operand and C. */
  lemma RolThenRor(st: State, address: Word)
    ensures ShiftInput(Ror(Rol(st, address), address), address) == ShiftInput(st, address)
    ensures GetFlag(Ror(Rol(st, address), address).p, Carry) == GetFlag(st.p, Carry)
  {
  }

  /** ROR then ROL on the same operand restores the operand and C. */
  lemma RorThenRol(st: State, address: Word)
    ensures ShiftInput(Rol(Ror(st, address), address), address) == ShiftInput(st, address)
    ensures GetFlag(Rol(Ror(st, address), address).p, Carry) == GetFlag(st.p, Carry)
  {
  }

  /** ASL then LSR clears bit 7 of the operand and leaves C clear. */
  lemma AslThenLsr(st: State, address: Word)
    ensures ShiftInput(Lsr(Asl(st, address), address), address) == ShiftInput(st, address) % 0x80
    ensures GetFlag(Lsr(Asl(st, address), address).p, Carry) == 0
  {
  }

  // ------------------------------------------------------------ Branches

  /** Of each branch pair exactly one is taken, whatever P holds. */
  lemma BranchPairsExclusive(p: bv8)
    ensures BranchTaken(BEQ, p) != BranchTaken(BNE, p)
    ensures BranchTaken(BCS, p) != BranchTaken(BCC, p)
    ensures BranchTaken(BMI, p) != BranchTaken(BPL, p)
    ensures BranchTaken(BVS, p) != BranchTaken(BVC, p)
  {
  }

  /** Executing a taken BEQ at `pc` is Branch from pc + 2 to the address
      Relative resolved (pc + 2 + the operand), so it lands at pc + 4 plus
      the signed byte found at that address rather than at pc + 2 plus the
      operand: the offset is read twice removed. */
  lemma ExecuteTakenBeq(st: State) returns (r: State)
    requires ReadMemory(st.mem, st.pc) == 0xF0
    requires GetFlag(st.p, Zero) == 1
    ensures r == Execute(st)
    ensures var pc2 := Wrap16(st.pc + 2);
            var address := Wrap16(pc2 + Signed(ReadMemory(st.mem, Wrap16(st.pc + 1))));
            && r == Branch(st.(pc := pc2), true, address)
            && Wrap16(r.pc - st.pc - 4) == Wrap16(Signed(ReadMemory(st.mem, address)))
  {
    var pc2 := Wrap16(st.pc + 2);
    var address := Wrap16(pc2 + Signed(ReadMemory(st.mem, Wrap16(st.pc + 1))));
    WrapAdd(st.pc + 1, 1);
    var operand := Resolve(Relative, st.(pc := Wrap16(st.pc + 1)));
    assert operand == Operand(address, pc2);
    r := Branch(st.(pc := pc2), true, address);
    assert Decode(0xF0) == Some(Instruction(BEQ, Relative));
    assert r == Perform(BEQ, st.(pc := pc2), address);
    BranchShift(r.pc, pc2, st.pc);
  }

  /** Re-basing a difference modulo 2^16 when the base is itself st.pc + 2. */
  lemma BranchShift(target: int, pc2: int, pc: int)
    requires pc2 == Wrap16(pc + 2)
    ensures Wrap16(target - pc - 4) == Wrap16(target - pc2 - 2)
  {
    var q := (pc + 2) / 0x10000;
    assert pc2 == pc + 2 - q * 0x10000;
    assert target - pc - 4 == target - pc2 - 2 - q * 0x10000;
  }

  // ------------------------------------------------------------ Scenarios of the test driver

  /** The memory image test_opcodes builds before running its LDA program. */
  function LdaProgram(): Memory
  {
    var m := seq(MemorySize, _ => 0);
    m[0x00 := 0xA9][0x01 := 0xAA]
     [0x02 := 0xA5][0x03 := 0x35][0x35 := 0xBB]
     [0x04 := 0xB5][0x05 := 0x35][0x38 := 0xCC]
     [0x06 := 0xAD][0x07 := 0x01][0x08 := 0x02][0x0201 := 0xDD]
     [0x09 := 0xBD][0x0A := 0x01][0x0B := 0x02][0x0204 := 0xEE]
     [0x0C := 0xB9][0x0D := 0x01][0x0E := 0x02][0x0203 := 0xFF]
     [0x0F := 0xA1][0x10 := 0x20][0x23 := 0xAA][0x24 := 0x01][0x01AA := 0xAA]
     [0x11 := 0xB1][0x12 := 0x23][0x01AC := 0xBB]
  }

  /** An LDA step leaves everything but A and PC alone. */
  lemma ExecuteLda(st: State, mode: Mode)
    requires Decode(ReadMemory(st.mem, st.pc)) == Some(Instruction(LDA, mode))
    ensures var operand := Resolve(mode, st.(pc := Wrap16(st.pc + 1)));
            Execute(st) == st.(a := ReadMemory(st.mem, operand.address), pc := operand.pc)
  {
  }

  /** The operand bytes of the instruction at PC. */
  function Operand1(st: State): Byte { ReadMemory(st.mem, Wrap16(st.pc + 1)) }
  function Operand2(st: State): Byte { ReadMemory(st.mem, Wrap16(st.pc + 2)) }

  /** LDA #imm (0xA9) loads the byte after the opcode. */
  lemma LdaImmediateStep(st: State)
    requires ReadMemory(st.mem, st.pc) == 0xA9
    ensures Step(st) == Some(st.(a := Operand1(st), pc := Wrap16(st.pc + 2)))
  {
    WrapAdd(st.pc + 1, 1);
    ExecuteLda(st, Immediate);
  }

  /** LDA zp (0xA5) loads from page 0 at the operand. */
  lemma LdaZeroPageStep(st: State)
    requires ReadMemory(st.mem, st.pc) == 0xA5
    ensures Step(st) == Some(st.(a := ReadMemory(st.mem, Operand1(st)), pc := Wrap16(st.pc + 2)))
  {
    WrapAdd(st.pc + 1, 1);
    ExecuteLda(st, ZeroPage);
  }

  /** LDA zp,X (0xB5) adds X inside page 0. */
  lemma LdaZeroPageXStep(st: State)
    requires ReadMemory(st.mem, st.pc) == 0xB5
    ensures Step(st) == Some(st.(a := ReadMemory(st.mem, Wrap8(Operand1(st) + st.x)), pc := Wrap16(st.pc + 2)))
  {
    WrapAdd(st.pc + 1, 1);
    ExecuteLda(st, ZeroPageX);
  }

  /** LDA abs (0xAD), abs,X (0xBD) and abs,Y (0xB9) add the index to the
      little-endian operand word modulo 2^16. */
  lemma LdaAbsoluteStep(st: State, index: Byte)
    requires || (ReadMemory(st.mem, st.pc) == 0xAD && index == 0)
             || (ReadMemory(st.mem, st.pc) == 0xBD && index == st.x)
             || (ReadMemory(st.mem, st.pc) == 0xB9 && index == st.y)
    ensures var base := Word16(Operand1(st), Operand2(st));
            Step(st) == Some(st.(a := ReadMemory(st.mem, Wrap16(base + index)), pc := Wrap16(st.pc + 3)))
  {
    AbsoluteOperand(st, index);
    if ReadMemory(st.mem, st.pc) == 0xAD {
      ExecuteLda(st, Absolute);
    } else if ReadMemory(st.mem, st.pc) == 0xBD {
      ExecuteLda(st, AbsoluteX);
    } else {
      ExecuteLda(st, AbsoluteY);
    }
  }

  /** The operand AbsoluteX-style modes resolve when the opcode is at PC. */
  lemma AbsoluteOperand(st: State, index: Byte)
    ensures AbsoluteIndexed(st.(pc := Wrap16(st.pc + 1)), index)
              == Operand(Wrap16(Word16(Operand1(st), Operand2(st)) + index), Wrap16(st.pc + 3))
  {
    WrapAdd(st.pc + 1, 1);
    WrapAdd(st.pc + 1, 2);
    var pc1 := Wrap16(st.pc + 1);
    assert ReadWord(st.mem, pc1) == Word16(Operand1(st), Operand2(st));
  }

  /** The operand (zp,X) resolves when the opcode is at PC. */
  lemma IndirectXOperand(st: State)
    ensures var pointer := Wrap8(Operand1(st) + st.x);
            IndirectXMode(st.(pc := Wrap16(st.pc + 1))) == Operand(ReadWord(st.mem, pointer), Wrap16(st.pc + 2))
  {
    WrapAdd(st.pc + 1, 1);
  }

  /** The operand (zp),Y resolves when the opcode is at PC. */
  lemma IndirectYOperand(st: State)
    ensures IndirectYMode(st.(pc := Wrap16(st.pc + 1)))
              == Operand(Wrap16(ReadWord(st.mem, Operand1(st)) + st.y), Wrap16(st.pc + 2))
  {
    var s1 := st.(pc := Wrap16(st.pc + 1));
    assert ReadMemory(s1.mem, s1.pc) == Operand1(st);
    assert IndirectYMode(s1).address == Wrap16(ReadWord(s1.mem, Operand1(st)) + s1.y);
    WrapAdd(st.pc + 1, 1);
  }

  /** LDA (zp,X) (0xA1): the pointer is operand + X inside page 0, and the
      word there (second byte at pointer + 1, so 0x0100 for pointer 0xFF)
      is the address loaded from. */
  lemma LdaIndirectXStep(st: State)
    requires ReadMemory(st.mem, st.pc) == 0xA1
    ensures var pointer := Wrap8(Operand1(st) + st.x);
            Step(st) == Some(st.(a := ReadMemory(st.mem, ReadWord(st.mem, pointer)), pc := Wrap16(st.pc + 2)))
  {
    IndirectXOperand(st);
    ExecuteLda(st, IndirectX);
  }

  /** LDA (zp),Y (0xB1): the word in page 0 at the operand, plus Y. */
  lemma LdaIndirectYStep(st: State)
    requires ReadMemory(st.mem, st.pc) == 0xB1
    ensures Step(st) == Some(st.(a := ReadMemory(st.mem, Wrap16(ReadWord(st.mem, Operand1(st)) + st.y)),
                                 pc := Wrap16(st.pc + 2)))
  {
    IndirectYOperand(st);
    ExecuteLda(st, IndirectY);
  }

  /** The bytes of the test_opcodes program and its data. */
  predicate HoldsLdaProgram(m: Memory)
  {
    && m[0x00] == 0xA9 && m[0x01] == 0xAA
    && m[0x02] == 0xA5 && m[0x03] == 0x35 && m[0x35] == 0xBB
    && m[0x04] == 0xB5 && m[0x05] == 0x35 && m[0x38] == 0xCC
    && m[0x06] == 0xAD && m[0x07] == 0x01 && m[0x08] == 0x02 && m[0x0201] == 0xDD
    && m[0x09] == 0xBD && m[0x0A] == 0x01 && m[0x0B] == 0x02 && m[0x0204] == 0xEE
    && m[0x0C] == 0xB9 && m[0x0D] == 0x01 && m[0x0E] == 0x02 && m[0x0203] == 0xFF
    && m[0x0F] == 0xA1 && m[0x10] == 0x20 && m[0x23] == 0xAA && m[0x24] == 0x01 && m[0x01AA] == 0xAA
    && m[0x11] == 0xB1 && m[0x12] == 0x23 && m[0x01AC] == 0xBB
  }

  /** The image test_opcodes writes into a fresh CPU holds the program. */
  lemma LdaProgramImage()
    ensures HoldsLdaProgram(LdaProgram())
  {
  }

  /** test_opcodes: with PC = 0, X = 3 and Y = 2, eight successive execute
      steps load AA, BB, CC, DD, EE, FF, AA, BB through the eight LDA modes,
      each leaving X, Y, S, P and memory as they were. */
  lemma LdaProgramLoads(st: State)
    requires HoldsLdaProgram(st.mem) && st.pc == 0 && st.x == 3 && st.y == 2
    ensures Step(st) == Some(st.(a := 0xAA, pc := 2))
    ensures Step(st.(a := 0xAA, pc := 2)) == Some(st.(a := 0xBB, pc := 4))
    ensures Step(st.(a := 0xBB, pc := 4)) == Some(st.(a := 0xCC, pc := 6))
    ensures Step(st.(a := 0xCC, pc := 6)) == Some(st.(a := 0xDD, pc := 9))
    ensures Step(st.(a := 0xDD, pc := 9)) == Some(st.(a := 0xEE, pc := 0x0C))
    ensures Step(st.(a := 0xEE, pc := 0x0C)) == Some(st.(a := 0xFF, pc := 0x0F))
    ensures Step(st.(a := 0xFF, pc := 0x0F)) == Some(st.(a := 0xAA, pc := 0x11))
    ensures Step(st.(a := 0xAA, pc := 0x11)) == Some(st.(a := 0xBB, pc := 0x13))
  {
    LdaProgramFirstHalf(st);
    LdaProgramZeroPageX(st);
    LdaProgramAbsolute(st);
    LdaProgramAbsoluteX(st);
    LdaProgramAbsoluteY(st);
    LdaProgramIndirectX(st);
    LdaProgramIndirectY(st);
  }

  /** Steps 1 and 2: immediate and zero page. */
  lemma LdaProgramFirstHalf(st: State)
    requires HoldsLdaProgram(st.mem) && st.pc == 0 && st.x == 3 && st.y == 2
    ensures Step(st) == Some(st.(a := 0xAA, pc := 2))
    ensures Step(st.(a := 0xAA, pc := 2)) == Some(st.(a := 0xBB, pc := 4))
  {
    LdaImmediateStep(st);
    LdaZeroPageStep(st.(a := 0xAA, pc := 2));
  }

  /** Step 3: zero page X, 0x35 + 3. */
  lemma LdaProgramZeroPageX(st: State)
    requires HoldsLdaProgram(st.mem) && st.pc == 0 && st.x == 3 && st.y == 2
    ensures Step(st.(a := 0xBB, pc := 4)) == Some(st.(a := 0xCC, pc := 6))
  {
    LdaZeroPageXStep(st.(a := 0xBB, pc := 4));
  }

  /** Step 4: absolute 0x0201. */
  lemma LdaProgramAbsolute(st: State)
    requires HoldsLdaProgram(st.mem) && st.pc == 0 && st.x == 3 && st.y == 2
    ensures Step(st.(a := 0xCC, pc := 6)) == Some(st.(a := 0xDD, pc := 9))
  {
    assert Word16(0x01, 0x02) == 0x0201;
    LdaAbsoluteStep(st.(a := 0xCC, pc := 6), 0);
  }

  /** Step 5: absolute X, 0x0201 + 3. */
  lemma LdaProgramAbsoluteX(st: State)
    requires HoldsLdaProgram(st.mem) && st.pc == 0 && st.x == 3 && st.y == 2
    ensures Step(st.(a := 0xDD, pc := 9)) == Some(st.(a := 0xEE, pc := 0x0C))
  {
    assert Word16(0x01, 0x02) == 0x0201;
    LdaAbsoluteStep(st.(a := 0xDD, pc := 9), 3);
  }

  /** Step 6: absolute Y, 0x0201 + 2. */
  lemma LdaProgramAbsoluteY(st: State)
    requires HoldsLdaProgram(st.mem) && st.pc == 0 && st.x == 3 && st.y == 2
    ensures Step(st.(a := 0xEE, pc := 0x0C)) == Some(st.(a := 0xFF, pc := 0x0F))
  {
    assert Word16(0x01, 0x02) == 0x0201;
    LdaAbsoluteStep(st.(a := 0xEE, pc := 0x0C), 2);
  }

  /** Step 7: (zp,X) through the word at 0x20 + 3. */
  lemma LdaProgramIndirectX(st: State)
    requires HoldsLdaProgram(st.mem) && st.pc == 0 && st.x == 3 && st.y == 2
    ensures Step(st.(a := 0xFF, pc := 0x0F)) == Some(st.(a := 0xAA, pc := 0x11))
  {
    var s6 := st.(a := 0xFF, pc := 0x0F);
    assert Operand1(s6) == 0x20;
    assert Wrap8(Operand1(s6) + s6.x) == 0x23;
    assert ReadWord(st.mem, 0x23) == 0x01AA;
    LdaIndirectXStep(s6);
  }

  /** Step 8: (zp),Y through the word at 0x23, plus 2. */
  lemma LdaProgramIndirectY(st: State)
    requires HoldsLdaProgram(st.mem) && st.pc == 0 && st.x == 3 && st.y == 2
    ensures Step(st.(a := 0xAA, pc := 0x11)) == Some(st.(a := 0xBB, pc := 0x13))
  {
    assert ReadWord(st.mem, 0x23) == 0x01AA;
    LdaIndirectYStep(st.(a := 0xAA, pc := 0x11));
  }

  /** test_reset: after setting Z and V, clearing I and S = 0xAA, a reset with
      the vector bytes A9 C2 gives P = 0x24, S = 0xFD and PC = 0xC2A9. */
  lemma ResetScenario()
    ensures var p := SetFlag(SetFlag(SetFlag(PowerOn.p, Zero, true), Overflow, true), InterruptDisable, false);
            var st := PowerOn.(p := p, pc := 0, s := 0xAA,
                               mem := WriteMemory(WriteMemory(PowerOn.mem, 0xFFFC, 0xA9), 0xFFFD, 0xC2));
            var r := Reset(st);
            r.p == 0x24 && r.s == 0xFD && r.pc == 0xC2A9
  {
    var st := PowerOn.(mem := WriteMemory(WriteMemory(PowerOn.mem, 0xFFFC, 0xA9), 0xFFFD, 0xC2));
    assert ReadMemory(st.mem, 0xFFFC) == 0xA9 && ReadMemory(st.mem, 0xFFFD) == 0xC2;
    assert Word16(0xA9, 0xC2) == 0xC2A9;
  }

  /** test_stack: push 0xBC and pop it back, then push16 0xABCD and pop
      0xAB and 0xCD, ending at the starting stack address. */
  lemma StackScenario()
    ensures var (top, t1) := Pop(Push(PowerOn, 0xBC));
            var t2 := Push16(t1, 0xABCD);
            var (hi, t3) := Pop(t2);
            var (lo, t4) := Pop(t3);
            && top == 0xBC && t1.s == PowerOn.s
            && ReadMemory(t2.mem, StackAddress(t2.s)) == 0xAB
            && ReadMemory(t2.mem, StackAddress(t2.s) + 1) == 0xCD
            && hi == 0xAB && lo == 0xCD && t4.s == PowerOn.s
  {
    PushThenPop(PowerOn, 0xBC);
    var t1 := Pop(Push(PowerOn, 0xBC)).1;
    Push16ThenPopTwice(t1, 0xABCD);
  }

  /** test_nmi and test_irq: from power-on the NMI lowers S by 3 and sets PC
      to 0xFFFA; with I cleared the IRQ lowers S by 3 as well. */
  lemma InterruptScenarios()
    ensures Nmi(PowerOn).s == 0xFA && Nmi(PowerOn).pc == 0xFFFA
    ensures Irq(PowerOn.(p := SetFlag(PowerOn.p, InterruptDisable, false))).s == 0xFA
    ensures Irq(PowerOn) == PowerOn
  {
  }
}
