/** The canonical program on a record of its registers, one lemma for each instruction behind the prologue. */
module CanonicalItems {
  import opened ByteStrings
  import opened Isa
  import opened Assembler
  import opened LabelMachine
  import opened CanonicalProgram
  import opened CanonicalTurns
  import opened CanonicalSpec

  /** The registers that change behind the prologue, the memory, the flags and the path. */
  datatype File = File(
    r0: Cell, r2: Cell, r3: Cell, r4: Cell, r5: Cell, r7: Cell, r9: Cell, r10: Cell, r11: Cell,
    r12: Cell, r13: Cell, r14: Cell, r15: Cell, mem: seq<Cell>, flags: Flags, path: Path)

  function Register(s: File, i: nat): Cell {
    if i == 0 then s.r0 else if i == 1 then Idx(22) else if i == 2 then s.r2 else if i == 3 then s.r3
    else if i == 4 then s.r4 else if i == 5 then s.r5 else if i == 6 then ONE else if i == 7 then s.r7
    else if i == 8 then ZERO else if i == 9 then s.r9 else if i == 10 then s.r10 else if i == 11 then s.r11
    else if i == 12 then s.r12 else if i == 13 then s.r13 else if i == 14 then s.r14 else s.r15
  }

  function Registers(s: File): (r: seq<Cell>)
    ensures |r| == 16
  { seq(16, i requires 0 <= i < 16 => Register(s, i)) }

  /** A register read. */
  lemma Reading(s: File, i: nat)
    requires i < 16
    ensures Registers(s)[i] == Register(s, i)
  {}

  lemma Constants(s: File)
    ensures Registers(s)[1] == Idx(22) && Registers(s)[6] == ONE && Registers(s)[8] == ZERO
  {}

  /** A register write: `s'` differs from `s` in register rd alone. */
  lemma Put(s: File, rd: nat, v: Cell, s': File)
    requires rd < 16 && Register(s', rd) == v
    requires forall i :: 0 <= i < 16 && i != rd ==> Register(s', i) == Register(s, i)
    ensures Registers(s') == Registers(s)[rd := v]
  {
    hide Register;
  }

  /** The machine with these registers at item k, in the subroutine or outside it. */
  function At(s: File, k: nat, inside: bool): Machine {
    Machine(Registers(s), s.mem, if inside then [35] else [], s.flags, k, s.path, false, 0)
  }

  /** n turns lead from item k with s to item k' with s'. */
  ghost predicate Leads(s: File, k: nat, inside: bool, n: nat, s': File, k': nat, inside': bool) {
    && InRange(Program(), At(s, k, inside)) && InRange(Program(), At(s', k', inside'))
    && Turns(At(s, k, inside), n) == Some(At(s', k', inside'))
  }

  lemma FileInRange(s: File, k: nat, inside: bool)
    requires |s.mem| == VM_MEM_WORDS && k <= LENGTH
    ensures InRange(Program(), At(s, k, inside))
  {
    hide Registers, Program;
  }

  lemma NoTurn(s: File, k: nat, inside: bool)
    requires |s.mem| == VM_MEM_WORDS && k <= LENGTH
    ensures Leads(s, k, inside, 0, s, k, inside)
  {
    hide InRange, At;
    FileInRange(s, k, inside);
    TurnsZero(At(s, k, inside));
    hide Turns;
  }

  lemma OneTurn(s: File, k: nat, inside: bool, s': File, k': nat, inside': bool)
    requires InRange(Program(), At(s, k, inside)) && Goes(At(s, k, inside), At(s', k', inside'))
    ensures Leads(s, k, inside, 1, s', k', inside')
  {
    hide InRange, At, LabelStep;
    TurnsZero(At(s, k, inside));
    hide Turns;
    Extend(At(s, k, inside), 0, At(s, k, inside), At(s', k', inside'));
  }

  /** Runs follow one another. */
  lemma Chain(s: File, k: nat, inside: bool, n: nat, a: File, l: nat, inside': bool, n': nat, b: File, j: nat,
              inside'': bool)
    requires Leads(s, k, inside, n, a, l, inside') && Leads(a, l, inside', n', b, j, inside'')
    ensures Leads(s, k, inside, n + n', b, j, inside'')
  {
    hide InRange, At, Turns;
    Join(At(s, k, inside), n, At(a, l, inside'), n');
  }

  /** What is no register does not matter to them. */
  lemma Same(s: File, mem: seq<Cell>, flags: Flags, path: Path)
    ensures Registers(s.(mem := mem)) == Registers(s.(flags := flags)) == Registers(s.(path := path)) == Registers(s)
  {
    hide Idx;
  }

  lemma Items9()
    ensures ItemAt(9).Emit? && InstrAt(9) == Cmp(0, 1) && ItemAt(8).Label?
    ensures ItemAt(10).Emit? && InstrAt(10) == Jcc(true, 29)
    ensures ItemAt(11).Emit? && InstrAt(11) == MovRR(7, 0)
    ensures ItemAt(12).Emit? && InstrAt(12) == Load(2, 7)
    ensures ItemAt(13).Emit? && InstrAt(13) == Hash(12, 12, 2)
  {
    hide WordOf;
  }

  lemma Items14()
    ensures ItemAt(14).Emit? && InstrAt(14) == MixIn(13, 2)
    ensures ItemAt(15).Emit? && InstrAt(15) == Alu(AND, 3, 2, 6)
    ensures ItemAt(16).Emit? && InstrAt(16) == Cmp(3, 8)
    ensures ItemAt(17).Emit? && InstrAt(17) == Jcc(true, 21)
    ensures ItemAt(18).Emit? && InstrAt(18) == Hash(15, 15, 2)
  {
    hide WordOf;
  }

  lemma Items19()
    ensures ItemAt(19).Emit? && InstrAt(19) == ShiftBy(ROL, 15, 15, 7)
    ensures ItemAt(20).Emit? && InstrAt(20) == Jmp(24)
    ensures ItemAt(22).Emit? && InstrAt(22) == Hash(14, 14, 2) && ItemAt(21).Label?
    ensures ItemAt(23).Emit? && InstrAt(23) == ShiftBy(ROR, 14, 14, 11)
  {
    hide WordOf;
  }

  lemma Items25()
    ensures ItemAt(25).Emit? && InstrAt(25) == Alu(XOR, 12, 12, 14) && ItemAt(24).Label?
    ensures ItemAt(26).Emit? && InstrAt(26) == Alu(ADD, 13, 13, 15)
    ensures ItemAt(27).Emit? && InstrAt(27) == Alu(ADD, 0, 0, 6)
    ensures ItemAt(28).Emit? && InstrAt(28) == Jmp(8)
  {
    hide WordOf;
  }

  lemma Items30()
    ensures ItemAt(30).Emit? && InstrAt(30) == Hash(12, 12, 13) && ItemAt(29).Label?
    ensures ItemAt(31).Emit? && InstrAt(31) == Hash(13, 13, 14)
    ensures ItemAt(32).Emit? && InstrAt(32) == Hash(14, 14, 15)
    ensures ItemAt(33).Emit? && InstrAt(33) == Hash(15, 15, 12)
  {
    hide WordOf;
  }

  lemma Items34()
    ensures ItemAt(34).Emit? && InstrAt(34) == Call(36)
  {
    hide WordOf;
  }

  lemma Items37()
    ensures ItemAt(37).Emit? && InstrAt(37) == Nop && ItemAt(36).Label?
    ensures ItemAt(38).Emit? && InstrAt(38) == Not(3, 12)
    ensures ItemAt(39).Emit? && InstrAt(39) == Alu(OR, 4, 13, 3)
    ensures ItemAt(40).Emit? && InstrAt(40) == Alu(SUB, 5, 14, 15)
    ensures ItemAt(41).Emit? && InstrAt(41) == Alu(MUL, 9, 5, 6)
  {
    hide WordOf;
  }

  lemma Items42()
    ensures ItemAt(42).Emit? && InstrAt(42) == ShiftBy(SHL, 10, 4, 3)
    ensures ItemAt(43).Emit? && InstrAt(43) == ShiftBy(SHR, 11, 4, 5)
    ensures ItemAt(44).Emit? && InstrAt(44) == Alu(XOR, 4, 10, 11)
    ensures ItemAt(45).Emit? && InstrAt(45) == MovRI(0, Cell(WordOf(3)))
  {
    hide WordOf;
  }

  lemma Items47()
    ensures ItemAt(47).Emit? && InstrAt(47) == Hash(9, 9, 4) && ItemAt(46).Label?
    ensures ItemAt(48).Emit? && InstrAt(48) == Cmp(9, 8)
  {
    hide WordOf;
  }

  lemma Items49()
    ensures ItemAt(49).Emit? && InstrAt(49) == CMov(5, 9, 1)
    ensures ItemAt(50).Emit? && InstrAt(50) == Alu(SUB, 0, 0, 6)
    ensures ItemAt(51).Emit? && InstrAt(51) == Cmp(0, 8)
  {
    hide WordOf;
  }

  lemma Items52()
    ensures ItemAt(52).Emit? && InstrAt(52) == Jcc(false, 46)
    ensures ItemAt(53).Emit? && InstrAt(53) == Store(7, 9)
    ensures ItemAt(54).Emit? && InstrAt(54) == Alu(XOR, 12, 12, 9)
    ensures ItemAt(55).Emit? && InstrAt(55) == Alu(ADD, 13, 13, 5)
  {
    hide WordOf;
  }

  lemma Items56()
    ensures ItemAt(56).Emit? && InstrAt(56) == Alu(XOR, 14, 14, 4)
    ensures ItemAt(57).Emit? && InstrAt(57) == MixIn(15, 3)
    ensures ItemAt(58).Emit? && InstrAt(58) == Ret
  {
    hide WordOf;
  }

  lemma Go9(s: File)
    requires |s.mem| == VM_MEM_WORDS
    ensures Leads(s, 8, false, 1, s.(flags := CmpFlags(s.r0, Idx(22))), 10, false)
  {
    hide Leads, Goes, Registers, AluOp, Complement, ShiftOp, HashCells, MixCells, MemIndex, CmpFlags, FoldPath, Idx,
         WordOf, Offset, ItemAt, InstrAt, Program, InRange;
    Items9();
    Constants(s);
    Reading(s, 0);
    Same(s, s.mem, CmpFlags(s.r0, Idx(22)), s.path);
    FileInRange(s, 8, false);
    var m := At(s, 8, false);
    TurnCmp(m, 9, 0, 1);
    OneTurn(s, 8, false, s.(flags := CmpFlags(s.r0, Idx(22))), 10, false);
  }

  lemma Go10(s: File)
    requires |s.mem| == VM_MEM_WORDS
    ensures Leads(s, 10, false, 1, s.(path := FoldPath(s.path, 86, s.flags.zf)), if s.flags.zf then 29 else 11, false)
  {
    hide Leads, Goes, Registers, AluOp, Complement, ShiftOp, HashCells, MixCells, MemIndex, CmpFlags, FoldPath, Idx,
         WordOf, Offset, ItemAt, InstrAt, Program, InRange;
    Items9();
    Offsets8();
    Same(s, s.mem, s.flags, FoldPath(s.path, 86, s.flags.zf));
    FileInRange(s, 10, false);
    var m := At(s, 10, false);
    TurnJcc(m, 10, true, 29);
    OneTurn(s, 10, false, s.(path := FoldPath(s.path, 86, s.flags.zf)), if s.flags.zf then 29 else 11, false);
  }

  lemma Go11(s: File)
    requires |s.mem| == VM_MEM_WORDS
    ensures Leads(s, 11, false, 1, s.(r7 := s.r0), 12, false)
  {
    hide Leads, Goes, Registers, AluOp, Complement, ShiftOp, HashCells, MixCells, MemIndex, CmpFlags, FoldPath, Idx,
         WordOf, Offset, ItemAt, InstrAt, Program, InRange;
    Items9();
    Reading(s, 0);
    Put(s, 7, s.r0, s.(r7 := s.r0));
    Reading(s, 7);
    FileInRange(s, 11, false);
    var m := At(s, 11, false);
    TurnMovRR(m, 11, 7, 0);
    OneTurn(s, 11, false, s.(r7 := s.r0), 12, false);
  }

  lemma Go12(s: File)
    requires |s.mem| == VM_MEM_WORDS
    ensures Leads(s, 12, false, 1, s.(r2 := s.mem[MemIndex(s.r7)]), 13, false)
  {
    hide Leads, Goes, Registers, AluOp, Complement, ShiftOp, HashCells, MixCells, MemIndex, CmpFlags, FoldPath, Idx,
         WordOf, Offset, ItemAt, InstrAt, Program, InRange;
    Items9();
    Reading(s, 7);
    Put(s, 2, s.mem[MemIndex(s.r7)], s.(r2 := s.mem[MemIndex(s.r7)]));
    Reading(s, 2);
    FileInRange(s, 12, false);
    var m := At(s, 12, false);
    TurnLoad(m, 12, 2, 7);
    OneTurn(s, 12, false, s.(r2 := s.mem[MemIndex(s.r7)]), 13, false);
  }

  lemma Go13(s: File)
    requires |s.mem| == VM_MEM_WORDS
    ensures Leads(s, 13, false, 1, s.(r12 := HashCells(s.r12, s.r2)), 14, false)
  {
    hide Leads, Goes, Registers, AluOp, Complement, ShiftOp, HashCells, MixCells, MemIndex, CmpFlags, FoldPath, Idx,
         WordOf, Offset, ItemAt, InstrAt, Program, InRange;
    Items9();
    Reading(s, 2);
    Put(s, 12, HashCells(s.r12, s.r2), s.(r12 := HashCells(s.r12, s.r2)));
    Reading(s, 12);
    FileInRange(s, 13, false);
    var m := At(s, 13, false);
    TurnHash(m, 13, 12, 12, 2);
    OneTurn(s, 13, false, s.(r12 := HashCells(s.r12, s.r2)), 14, false);
  }

  lemma Go14(s: File)
    requires |s.mem| == VM_MEM_WORDS
    ensures Leads(s, 14, false, 1, s.(r13 := MixCells(s.r13, s.r2, 13)), 15, false)
  {
    hide Leads, Goes, Registers, AluOp, Complement, ShiftOp, HashCells, MixCells, MemIndex, CmpFlags, FoldPath, Idx,
         WordOf, Offset, ItemAt, InstrAt, Program, InRange;
    Items14();
    Reading(s, 2);
    Put(s, 13, MixCells(s.r13, s.r2, 13), s.(r13 := MixCells(s.r13, s.r2, 13)));
    Reading(s, 13);
    FileInRange(s, 14, false);
    var m := At(s, 14, false);
    TurnMix(m, 14, 13, 2);
    OneTurn(s, 14, false, s.(r13 := MixCells(s.r13, s.r2, 13)), 15, false);
  }

  lemma Go15(s: File)
    requires |s.mem| == VM_MEM_WORDS
    ensures Leads(s, 15, false, 1, s.(r3 := AluOp(AND, s.r2, ONE)), 16, false)
  {
    hide Leads, Goes, Registers, AluOp, Complement, ShiftOp, HashCells, MixCells, MemIndex, CmpFlags, FoldPath, Idx,
         WordOf, Offset, ItemAt, InstrAt, Program, InRange;
    Items14();
    Constants(s);
    Reading(s, 2);
    Put(s, 3, AluOp(AND, s.r2, ONE), s.(r3 := AluOp(AND, s.r2, ONE)));
    Reading(s, 3);
    FileInRange(s, 15, false);
    var m := At(s, 15, false);
    TurnAlu(m, 15, AND, 3, 2, 6);
    OneTurn(s, 15, false, s.(r3 := AluOp(AND, s.r2, ONE)), 16, false);
  }

  lemma Go16(s: File)
    requires |s.mem| == VM_MEM_WORDS
    ensures Leads(s, 16, false, 1, s.(flags := CmpFlags(s.r3, ZERO)), 17, false)
  {
    hide Leads, Goes, Registers, AluOp, Complement, ShiftOp, HashCells, MixCells, MemIndex, CmpFlags, FoldPath, Idx,
         WordOf, Offset, ItemAt, InstrAt, Program, InRange;
    Items14();
    Constants(s);
    Reading(s, 3);
    Same(s, s.mem, CmpFlags(s.r3, ZERO), s.path);
    FileInRange(s, 16, false);
    var m := At(s, 16, false);
    TurnCmp(m, 16, 3, 8);
    OneTurn(s, 16, false, s.(flags := CmpFlags(s.r3, ZERO)), 17, false);
  }

  lemma Go17(s: File)
    requires |s.mem| == VM_MEM_WORDS
    ensures Leads(s, 17, false, 1, s.(path := FoldPath(s.path, 109, s.flags.zf)), if s.flags.zf then 21 else 18, false)
  {
    hide Leads, Goes, Registers, AluOp, Complement, ShiftOp, HashCells, MixCells, MemIndex, CmpFlags, FoldPath, Idx,
         WordOf, Offset, ItemAt, InstrAt, Program, InRange;
    Items14();
    Offsets8();
    Same(s, s.mem, s.flags, FoldPath(s.path, 109, s.flags.zf));
    FileInRange(s, 17, false);
    var m := At(s, 17, false);
    TurnJcc(m, 17, true, 21);
    OneTurn(s, 17, false, s.(path := FoldPath(s.path, 109, s.flags.zf)), if s.flags.zf then 21 else 18, false);
  }

  lemma Go18(s: File)
    requires |s.mem| == VM_MEM_WORDS
    ensures Leads(s, 18, false, 1, s.(r15 := HashCells(s.r15, s.r2)), 19, false)
  {
    hide Leads, Goes, Registers, AluOp, Complement, ShiftOp, HashCells, MixCells, MemIndex, CmpFlags, FoldPath, Idx,
         WordOf, Offset, ItemAt, InstrAt, Program, InRange;
    Items14();
    Reading(s, 2);
    Put(s, 15, HashCells(s.r15, s.r2), s.(r15 := HashCells(s.r15, s.r2)));
    Reading(s, 15);
    FileInRange(s, 18, false);
    var m := At(s, 18, false);
    TurnHash(m, 18, 15, 15, 2);
    OneTurn(s, 18, false, s.(r15 := HashCells(s.r15, s.r2)), 19, false);
  }

  lemma Go19(s: File)
    requires |s.mem| == VM_MEM_WORDS
    ensures Leads(s, 19, false, 1, s.(r15 := ShiftOp(ROL, s.r15, 7)), 20, false)
  {
    hide Leads, Goes, Registers, AluOp, Complement, ShiftOp, HashCells, MixCells, MemIndex, CmpFlags, FoldPath, Idx,
         WordOf, Offset, ItemAt, InstrAt, Program, InRange;
    Items19();
    Put(s, 15, ShiftOp(ROL, s.r15, 7), s.(r15 := ShiftOp(ROL, s.r15, 7)));
    Reading(s, 15);
    FileInRange(s, 19, false);
    var m := At(s, 19, false);
    TurnShift(m, 19, ROL, 15, 15, 7);
    OneTurn(s, 19, false, s.(r15 := ShiftOp(ROL, s.r15, 7)), 20, false);
  }

  lemma Go20(s: File)
    requires |s.mem| == VM_MEM_WORDS
    ensures Leads(s, 20, false, 1, s, 24, false)
  {
    hide Leads, Goes, Registers, AluOp, Complement, ShiftOp, HashCells, MixCells, MemIndex, CmpFlags, FoldPath, Idx,
         WordOf, Offset, ItemAt, InstrAt, Program, InRange;
    Items19();
    FileInRange(s, 20, false);
    var m := At(s, 20, false);
    TurnJmp(m, 20, 24);
    OneTurn(s, 20, false, s, 24, false);
  }

  lemma Go22(s: File)
    requires |s.mem| == VM_MEM_WORDS
    ensures Leads(s, 21, false, 1, s.(r14 := HashCells(s.r14, s.r2)), 23, false)
  {
    hide Leads, Goes, Registers, AluOp, Complement, ShiftOp, HashCells, MixCells, MemIndex, CmpFlags, FoldPath, Idx,
         WordOf, Offset, ItemAt, InstrAt, Program, InRange;
    Items19();
    Reading(s, 2);
    Put(s, 14, HashCells(s.r14, s.r2), s.(r14 := HashCells(s.r14, s.r2)));
    Reading(s, 14);
    FileInRange(s, 21, false);
    var m := At(s, 21, false);
    TurnHash(m, 22, 14, 14, 2);
    OneTurn(s, 21, false, s.(r14 := HashCells(s.r14, s.r2)), 23, false);
  }

  lemma Go23(s: File)
    requires |s.mem| == VM_MEM_WORDS
    ensures Leads(s, 23, false, 1, s.(r14 := ShiftOp(ROR, s.r14, 11)), 24, false)
  {
    hide Leads, Goes, Registers, AluOp, Complement, ShiftOp, HashCells, MixCells, MemIndex, CmpFlags, FoldPath, Idx,
         WordOf, Offset, ItemAt, InstrAt, Program, InRange;
    Items19();
    Put(s, 14, ShiftOp(ROR, s.r14, 11), s.(r14 := ShiftOp(ROR, s.r14, 11)));
    Reading(s, 14);
    FileInRange(s, 23, false);
    var m := At(s, 23, false);
    TurnShift(m, 23, ROR, 14, 14, 11);
    OneTurn(s, 23, false, s.(r14 := ShiftOp(ROR, s.r14, 11)), 24, false);
  }

  lemma Go25(s: File)
    requires |s.mem| == VM_MEM_WORDS
    ensures Leads(s, 24, false, 1, s.(r12 := AluOp(XOR, s.r12, s.r14)), 26, false)
  {
    hide Leads, Goes, Registers, AluOp, Complement, ShiftOp, HashCells, MixCells, MemIndex, CmpFlags, FoldPath, Idx,
         WordOf, Offset, ItemAt, InstrAt, Program, InRange;
    Items25();
    Reading(s, 14);
    Put(s, 12, AluOp(XOR, s.r12, s.r14), s.(r12 := AluOp(XOR, s.r12, s.r14)));
    Reading(s, 12);
    FileInRange(s, 24, false);
    var m := At(s, 24, false);
    TurnAlu(m, 25, XOR, 12, 12, 14);
    OneTurn(s, 24, false, s.(r12 := AluOp(XOR, s.r12, s.r14)), 26, false);
  }

  lemma Go26(s: File)
    requires |s.mem| == VM_MEM_WORDS
    ensures Leads(s, 26, false, 1, s.(r13 := AluOp(ADD, s.r13, s.r15)), 27, false)
  {
    hide Leads, Goes, Registers, AluOp, Complement, ShiftOp, HashCells, MixCells, MemIndex, CmpFlags, FoldPath, Idx,
         WordOf, Offset, ItemAt, InstrAt, Program, InRange;
    Items25();
    Reading(s, 15);
    Put(s, 13, AluOp(ADD, s.r13, s.r15), s.(r13 := AluOp(ADD, s.r13, s.r15)));
    Reading(s, 13);
    FileInRange(s, 26, false);
    var m := At(s, 26, false);
    TurnAlu(m, 26, ADD, 13, 13, 15);
    OneTurn(s, 26, false, s.(r13 := AluOp(ADD, s.r13, s.r15)), 27, false);
  }

  lemma Go27(s: File)
    requires |s.mem| == VM_MEM_WORDS
    ensures Leads(s, 27, false, 1, s.(r0 := AluOp(ADD, s.r0, ONE)), 28, false)
  {
    hide Leads, Goes, Registers, AluOp, Complement, ShiftOp, HashCells, MixCells, MemIndex, CmpFlags, FoldPath, Idx,
         WordOf, Offset, ItemAt, InstrAt, Program, InRange;
    Items25();
    Constants(s);
    Put(s, 0, AluOp(ADD, s.r0, ONE), s.(r0 := AluOp(ADD, s.r0, ONE)));
    Reading(s, 0);
    FileInRange(s, 27, false);
    var m := At(s, 27, false);
    TurnAlu(m, 27, ADD, 0, 0, 6);
    OneTurn(s, 27, false, s.(r0 := AluOp(ADD, s.r0, ONE)), 28, false);
  }

  lemma Go28(s: File)
    requires |s.mem| == VM_MEM_WORDS
    ensures Leads(s, 28, false, 1, s, 8, false)
  {
    hide Leads, Goes, Registers, AluOp, Complement, ShiftOp, HashCells, MixCells, MemIndex, CmpFlags, FoldPath, Idx,
         WordOf, Offset, ItemAt, InstrAt, Program, InRange;
    Items25();
    FileInRange(s, 28, false);
    var m := At(s, 28, false);
    TurnJmp(m, 28, 8);
    OneTurn(s, 28, false, s, 8, false);
  }

  lemma Go30(s: File)
    requires |s.mem| == VM_MEM_WORDS
    ensures Leads(s, 29, false, 1, s.(r12 := HashCells(s.r12, s.r13)), 31, false)
  {
    hide Leads, Goes, Registers, AluOp, Complement, ShiftOp, HashCells, MixCells, MemIndex, CmpFlags, FoldPath, Idx,
         WordOf, Offset, ItemAt, InstrAt, Program, InRange;
    Items30();
    Reading(s, 13);
    Put(s, 12, HashCells(s.r12, s.r13), s.(r12 := HashCells(s.r12, s.r13)));
    Reading(s, 12);
    FileInRange(s, 29, false);
    var m := At(s, 29, false);
    TurnHash(m, 30, 12, 12, 13);
    OneTurn(s, 29, false, s.(r12 := HashCells(s.r12, s.r13)), 31, false);
  }

  lemma Go31(s: File)
    requires |s.mem| == VM_MEM_WORDS
    ensures Leads(s, 31, false, 1, s.(r13 := HashCells(s.r13, s.r14)), 32, false)
  {
    hide Leads, Goes, Registers, AluOp, Complement, ShiftOp, HashCells, MixCells, MemIndex, CmpFlags, FoldPath, Idx,
         WordOf, Offset, ItemAt, InstrAt, Program, InRange;
    Items30();
    Reading(s, 14);
    Put(s, 13, HashCells(s.r13, s.r14), s.(r13 := HashCells(s.r13, s.r14)));
    Reading(s, 13);
    FileInRange(s, 31, false);
    var m := At(s, 31, false);
    TurnHash(m, 31, 13, 13, 14);
    OneTurn(s, 31, false, s.(r13 := HashCells(s.r13, s.r14)), 32, false);
  }

  lemma Go32(s: File)
    requires |s.mem| == VM_MEM_WORDS
    ensures Leads(s, 32, false, 1, s.(r14 := HashCells(s.r14, s.r15)), 33, false)
  {
    hide Leads, Goes, Registers, AluOp, Complement, ShiftOp, HashCells, MixCells, MemIndex, CmpFlags, FoldPath, Idx,
         WordOf, Offset, ItemAt, InstrAt, Program, InRange;
    Items30();
    Reading(s, 15);
    Put(s, 14, HashCells(s.r14, s.r15), s.(r14 := HashCells(s.r14, s.r15)));
    Reading(s, 14);
    FileInRange(s, 32, false);
    var m := At(s, 32, false);
    TurnHash(m, 32, 14, 14, 15);
    OneTurn(s, 32, false, s.(r14 := HashCells(s.r14, s.r15)), 33, false);
  }

  lemma Go33(s: File)
    requires |s.mem| == VM_MEM_WORDS
    ensures Leads(s, 33, false, 1, s.(r15 := HashCells(s.r15, s.r12)), 34, false)
  {
    hide Leads, Goes, Registers, AluOp, Complement, ShiftOp, HashCells, MixCells, MemIndex, CmpFlags, FoldPath, Idx,
         WordOf, Offset, ItemAt, InstrAt, Program, InRange;
    Items30();
    Reading(s, 12);
    Put(s, 15, HashCells(s.r15, s.r12), s.(r15 := HashCells(s.r15, s.r12)));
    Reading(s, 15);
    FileInRange(s, 33, false);
    var m := At(s, 33, false);
    TurnHash(m, 33, 15, 15, 12);
    OneTurn(s, 33, false, s.(r15 := HashCells(s.r15, s.r12)), 34, false);
  }

  lemma Go34(s: File)
    requires |s.mem| == VM_MEM_WORDS
    ensures Leads(s, 34, false, 1, s, 36, true)
  {
    hide Leads, Goes, Registers, AluOp, Complement, ShiftOp, HashCells, MixCells, MemIndex, CmpFlags, FoldPath, Idx,
         WordOf, Offset, ItemAt, InstrAt, Program, InRange;
    Items34();
    assert At(s, 34, false).stack + [35] == [35];
    FileInRange(s, 34, false);
    var m := At(s, 34, false);
    TurnCall(m, 34, 36);
    OneTurn(s, 34, false, s, 36, true);
  }

  lemma Go37(s: File)
    requires |s.mem| == VM_MEM_WORDS
    ensures Leads(s, 36, true, 1, s, 38, true)
  {
    hide Leads, Goes, Registers, AluOp, Complement, ShiftOp, HashCells, MixCells, MemIndex, CmpFlags, FoldPath, Idx,
         WordOf, Offset, ItemAt, InstrAt, Program, InRange;
    Items37();
    FileInRange(s, 36, true);
    var m := At(s, 36, true);
    TurnNop(m, 37);
    OneTurn(s, 36, true, s, 38, true);
  }

  lemma Go38(s: File)
    requires |s.mem| == VM_MEM_WORDS
    ensures Leads(s, 38, true, 1, s.(r3 := Complement(s.r12)), 39, true)
  {
    hide Leads, Goes, Registers, AluOp, Complement, ShiftOp, HashCells, MixCells, MemIndex, CmpFlags, FoldPath, Idx,
         WordOf, Offset, ItemAt, InstrAt, Program, InRange;
    Items37();
    Reading(s, 12);
    Put(s, 3, Complement(s.r12), s.(r3 := Complement(s.r12)));
    Reading(s, 3);
    FileInRange(s, 38, true);
    var m := At(s, 38, true);
    TurnNot(m, 38, 3, 12);
    OneTurn(s, 38, true, s.(r3 := Complement(s.r12)), 39, true);
  }

  lemma Go39(s: File)
    requires |s.mem| == VM_MEM_WORDS
    ensures Leads(s, 39, true, 1, s.(r4 := AluOp(OR, s.r13, s.r3)), 40, true)
  {
    hide Leads, Goes, Registers, AluOp, Complement, ShiftOp, HashCells, MixCells, MemIndex, CmpFlags, FoldPath, Idx,
         WordOf, Offset, ItemAt, InstrAt, Program, InRange;
    Items37();
    Reading(s, 3);
    Reading(s, 13);
    Put(s, 4, AluOp(OR, s.r13, s.r3), s.(r4 := AluOp(OR, s.r13, s.r3)));
    Reading(s, 4);
    FileInRange(s, 39, true);
    var m := At(s, 39, true);
    TurnAlu(m, 39, OR, 4, 13, 3);
    OneTurn(s, 39, true, s.(r4 := AluOp(OR, s.r13, s.r3)), 40, true);
  }

  lemma Go40(s: File)
    requires |s.mem| == VM_MEM_WORDS
    ensures Leads(s, 40, true, 1, s.(r5 := AluOp(SUB, s.r14, s.r15)), 41, true)
  {
    hide Leads, Goes, Registers, AluOp, Complement, ShiftOp, HashCells, MixCells, MemIndex, CmpFlags, FoldPath, Idx,
         WordOf, Offset, ItemAt, InstrAt, Program, InRange;
    Items37();
    Reading(s, 14);
    Reading(s, 15);
    Put(s, 5, AluOp(SUB, s.r14, s.r15), s.(r5 := AluOp(SUB, s.r14, s.r15)));
    Reading(s, 5);
    FileInRange(s, 40, true);
    var m := At(s, 40, true);
    TurnAlu(m, 40, SUB, 5, 14, 15);
    OneTurn(s, 40, true, s.(r5 := AluOp(SUB, s.r14, s.r15)), 41, true);
  }

  lemma Go41(s: File)
    requires |s.mem| == VM_MEM_WORDS
    ensures Leads(s, 41, true, 1, s.(r9 := AluOp(MUL, s.r5, ONE)), 42, true)
  {
    hide Leads, Goes, Registers, AluOp, Complement, ShiftOp, HashCells, MixCells, MemIndex, CmpFlags, FoldPath, Idx,
         WordOf, Offset, ItemAt, InstrAt, Program, InRange;
    Items37();
    Constants(s);
    Reading(s, 5);
    Put(s, 9, AluOp(MUL, s.r5, ONE), s.(r9 := AluOp(MUL, s.r5, ONE)));
    Reading(s, 9);
    FileInRange(s, 41, true);
    var m := At(s, 41, true);
    TurnAlu(m, 41, MUL, 9, 5, 6);
    OneTurn(s, 41, true, s.(r9 := AluOp(MUL, s.r5, ONE)), 42, true);
  }

  lemma Go42(s: File)
    requires |s.mem| == VM_MEM_WORDS
    ensures Leads(s, 42, true, 1, s.(r10 := ShiftOp(SHL, s.r4, 3)), 43, true)
  {
    hide Leads, Goes, Registers, AluOp, Complement, ShiftOp, HashCells, MixCells, MemIndex, CmpFlags, FoldPath, Idx,
         WordOf, Offset, ItemAt, InstrAt, Program, InRange;
    Items42();
    Reading(s, 4);
    Put(s, 10, ShiftOp(SHL, s.r4, 3), s.(r10 := ShiftOp(SHL, s.r4, 3)));
    Reading(s, 10);
    FileInRange(s, 42, true);
    var m := At(s, 42, true);
    TurnShift(m, 42, SHL, 10, 4, 3);
    OneTurn(s, 42, true, s.(r10 := ShiftOp(SHL, s.r4, 3)), 43, true);
  }

  lemma Go43(s: File)
    requires |s.mem| == VM_MEM_WORDS
    ensures Leads(s, 43, true, 1, s.(r11 := ShiftOp(SHR, s.r4, 5)), 44, true)
  {
    hide Leads, Goes, Registers, AluOp, Complement, ShiftOp, HashCells, MixCells, MemIndex, CmpFlags, FoldPath, Idx,
         WordOf, Offset, ItemAt, InstrAt, Program, InRange;
    Items42();
    Reading(s, 4);
    Put(s, 11, ShiftOp(SHR, s.r4, 5), s.(r11 := ShiftOp(SHR, s.r4, 5)));
    Reading(s, 11);
    FileInRange(s, 43, true);
    var m := At(s, 43, true);
    TurnShift(m, 43, SHR, 11, 4, 5);
    OneTurn(s, 43, true, s.(r11 := ShiftOp(SHR, s.r4, 5)), 44, true);
  }

  lemma Go44(s: File)
    requires |s.mem| == VM_MEM_WORDS
    ensures Leads(s, 44, true, 1, s.(r4 := AluOp(XOR, s.r10, s.r11)), 45, true)
  {
    hide Leads, Goes, Registers, AluOp, Complement, ShiftOp, HashCells, MixCells, MemIndex, CmpFlags, FoldPath, Idx,
         WordOf, Offset, ItemAt, InstrAt, Program, InRange;
    Items42();
    Reading(s, 10);
    Reading(s, 11);
    Put(s, 4, AluOp(XOR, s.r10, s.r11), s.(r4 := AluOp(XOR, s.r10, s.r11)));
    Reading(s, 4);
    FileInRange(s, 44, true);
    var m := At(s, 44, true);
    TurnAlu(m, 44, XOR, 4, 10, 11);
    OneTurn(s, 44, true, s.(r4 := AluOp(XOR, s.r10, s.r11)), 45, true);
  }

  lemma Go45(s: File)
    requires |s.mem| == VM_MEM_WORDS
    ensures Leads(s, 45, true, 1, s.(r0 := Idx(3)), 46, true)
  {
    hide Leads, Goes, Registers, AluOp, Complement, ShiftOp, HashCells, MixCells, MemIndex, CmpFlags, FoldPath, Idx,
         WordOf, Offset, ItemAt, InstrAt, Program, InRange;
    Items42();
    SmallImmediates();
    Put(s, 0, Idx(3), s.(r0 := Idx(3)));
    Reading(s, 0);
    FileInRange(s, 45, true);
    var m := At(s, 45, true);
    TurnMovRI(m, 45, 0, Cell(WordOf(3)));
    OneTurn(s, 45, true, s.(r0 := Idx(3)), 46, true);
  }

  lemma Go47(s: File)
    requires |s.mem| == VM_MEM_WORDS
    ensures Leads(s, 46, true, 1, s.(r9 := HashCells(s.r9, s.r4)), 48, true)
  {
    hide Leads, Goes, Registers, AluOp, Complement, ShiftOp, HashCells, MixCells, MemIndex, CmpFlags, FoldPath, Idx,
         WordOf, Offset, ItemAt, InstrAt, Program, InRange;
    Items47();
    Reading(s, 4);
    Put(s, 9, HashCells(s.r9, s.r4), s.(r9 := HashCells(s.r9, s.r4)));
    Reading(s, 9);
    FileInRange(s, 46, true);
    var m := At(s, 46, true);
    TurnHash(m, 47, 9, 9, 4);
    OneTurn(s, 46, true, s.(r9 := HashCells(s.r9, s.r4)), 48, true);
  }

  lemma Go48(s: File)
    requires |s.mem| == VM_MEM_WORDS
    ensures Leads(s, 48, true, 1, s.(flags := CmpFlags(s.r9, ZERO)), 49, true)
  {
    hide Leads, Goes, Registers, AluOp, Complement, ShiftOp, HashCells, MixCells, MemIndex, CmpFlags, FoldPath, Idx,
         WordOf, Offset, ItemAt, InstrAt, Program, InRange;
    Items47();
    Constants(s);
    Reading(s, 9);
    Same(s, s.mem, CmpFlags(s.r9, ZERO), s.path);
    FileInRange(s, 48, true);
    var m := At(s, 48, true);
    TurnCmp(m, 48, 9, 8);
    OneTurn(s, 48, true, s.(flags := CmpFlags(s.r9, ZERO)), 49, true);
  }

  lemma Go49(s: File)
    requires |s.mem| == VM_MEM_WORDS
    ensures Leads(s, 49, true, 1, s.(r5 := if s.flags.zf then s.r5 else s.r9), 50, true)
  {
    hide Leads, Goes, Registers, AluOp, Complement, ShiftOp, HashCells, MixCells, MemIndex, CmpFlags, FoldPath, Idx,
         WordOf, Offset, ItemAt, InstrAt, Program, InRange;
    Items49();
    Reading(s, 9);
    Put(s, 5, if s.flags.zf then s.r5 else s.r9, s.(r5 := if s.flags.zf then s.r5 else s.r9));
    Reading(s, 5);
    FileInRange(s, 49, true);
    var m := At(s, 49, true);
    TurnCMovNotZero(m, 49, 5, 9);
    OneTurn(s, 49, true, s.(r5 := if s.flags.zf then s.r5 else s.r9), 50, true);
  }

  lemma Go50(s: File)
    requires |s.mem| == VM_MEM_WORDS
    ensures Leads(s, 50, true, 1, s.(r0 := AluOp(SUB, s.r0, ONE)), 51, true)
  {
    hide Leads, Goes, Registers, AluOp, Complement, ShiftOp, HashCells, MixCells, MemIndex, CmpFlags, FoldPath, Idx,
         WordOf, Offset, ItemAt, InstrAt, Program, InRange;
    Items49();
    Constants(s);
    Put(s, 0, AluOp(SUB, s.r0, ONE), s.(r0 := AluOp(SUB, s.r0, ONE)));
    Reading(s, 0);
    FileInRange(s, 50, true);
    var m := At(s, 50, true);
    TurnAlu(m, 50, SUB, 0, 0, 6);
    OneTurn(s, 50, true, s.(r0 := AluOp(SUB, s.r0, ONE)), 51, true);
  }

  lemma Go51(s: File)
    requires |s.mem| == VM_MEM_WORDS
    ensures Leads(s, 51, true, 1, s.(flags := CmpFlags(s.r0, ZERO)), 52, true)
  {
    hide Leads, Goes, Registers, AluOp, Complement, ShiftOp, HashCells, MixCells, MemIndex, CmpFlags, FoldPath, Idx,
         WordOf, Offset, ItemAt, InstrAt, Program, InRange;
    Items49();
    Constants(s);
    Reading(s, 0);
    Same(s, s.mem, CmpFlags(s.r0, ZERO), s.path);
    FileInRange(s, 51, true);
    var m := At(s, 51, true);
    TurnCmp(m, 51, 0, 8);
    OneTurn(s, 51, true, s.(flags := CmpFlags(s.r0, ZERO)), 52, true);
  }

  lemma Go52(s: File)
    requires |s.mem| == VM_MEM_WORDS
    ensures Leads(s, 52, true, 1, s.(path := FoldPath(s.path, 223, !s.flags.zf)), if !s.flags.zf then 46 else 53, true)
  {
    hide Leads, Goes, Registers, AluOp, Complement, ShiftOp, HashCells, MixCells, MemIndex, CmpFlags, FoldPath, Idx,
         WordOf, Offset, ItemAt, InstrAt, Program, InRange;
    Items52();
    Offsets46();
    Same(s, s.mem, s.flags, FoldPath(s.path, 223, !s.flags.zf));
    FileInRange(s, 52, true);
    var m := At(s, 52, true);
    TurnJcc(m, 52, false, 46);
    OneTurn(s, 52, true, s.(path := FoldPath(s.path, 223, !s.flags.zf)), if !s.flags.zf then 46 else 53, true);
  }

  lemma Go53(s: File)
    requires |s.mem| == VM_MEM_WORDS
    ensures Leads(s, 53, true, 1, s.(mem := s.mem[MemIndex(s.r7) := s.r9]), 54, true)
  {
    hide Leads, Goes, Registers, AluOp, Complement, ShiftOp, HashCells, MixCells, MemIndex, CmpFlags, FoldPath, Idx,
         WordOf, Offset, ItemAt, InstrAt, Program, InRange;
    Items52();
    Reading(s, 7);
    Reading(s, 9);
    Same(s, s.mem[MemIndex(s.r7) := s.r9], s.flags, s.path);
    FileInRange(s, 53, true);
    var m := At(s, 53, true);
    TurnStore(m, 53, 7, 9);
    OneTurn(s, 53, true, s.(mem := s.mem[MemIndex(s.r7) := s.r9]), 54, true);
  }

  lemma Go54(s: File)
    requires |s.mem| == VM_MEM_WORDS
    ensures Leads(s, 54, true, 1, s.(r12 := AluOp(XOR, s.r12, s.r9)), 55, true)
  {
    hide Leads, Goes, Registers, AluOp, Complement, ShiftOp, HashCells, MixCells, MemIndex, CmpFlags, FoldPath, Idx,
         WordOf, Offset, ItemAt, InstrAt, Program, InRange;
    Items52();
    Reading(s, 9);
    Put(s, 12, AluOp(XOR, s.r12, s.r9), s.(r12 := AluOp(XOR, s.r12, s.r9)));
    Reading(s, 12);
    FileInRange(s, 54, true);
    var m := At(s, 54, true);
    TurnAlu(m, 54, XOR, 12, 12, 9);
    OneTurn(s, 54, true, s.(r12 := AluOp(XOR, s.r12, s.r9)), 55, true);
  }

  lemma Go55(s: File)
    requires |s.mem| == VM_MEM_WORDS
    ensures Leads(s, 55, true, 1, s.(r13 := AluOp(ADD, s.r13, s.r5)), 56, true)
  {
    hide Leads, Goes, Registers, AluOp, Complement, ShiftOp, HashCells, MixCells, MemIndex, CmpFlags, FoldPath, Idx,
         WordOf, Offset, ItemAt, InstrAt, Program, InRange;
    Items52();
    Reading(s, 5);
    Put(s, 13, AluOp(ADD, s.r13, s.r5), s.(r13 := AluOp(ADD, s.r13, s.r5)));
    Reading(s, 13);
    FileInRange(s, 55, true);
    var m := At(s, 55, true);
    TurnAlu(m, 55, ADD, 13, 13, 5);
    OneTurn(s, 55, true, s.(r13 := AluOp(ADD, s.r13, s.r5)), 56, true);
  }

  lemma Go56(s: File)
    requires |s.mem| == VM_MEM_WORDS
    ensures Leads(s, 56, true, 1, s.(r14 := AluOp(XOR, s.r14, s.r4)), 57, true)
  {
    hide Leads, Goes, Registers, AluOp, Complement, ShiftOp, HashCells, MixCells, MemIndex, CmpFlags, FoldPath, Idx,
         WordOf, Offset, ItemAt, InstrAt, Program, InRange;
    Items56();
    Reading(s, 4);
    Put(s, 14, AluOp(XOR, s.r14, s.r4), s.(r14 := AluOp(XOR, s.r14, s.r4)));
    Reading(s, 14);
    FileInRange(s, 56, true);
    var m := At(s, 56, true);
    TurnAlu(m, 56, XOR, 14, 14, 4);
    OneTurn(s, 56, true, s.(r14 := AluOp(XOR, s.r14, s.r4)), 57, true);
  }

  lemma Go57(s: File)
    requires |s.mem| == VM_MEM_WORDS
    ensures Leads(s, 57, true, 1, s.(r15 := MixCells(s.r15, s.r3, 15)), 58, true)
  {
    hide Leads, Goes, Registers, AluOp, Complement, ShiftOp, HashCells, MixCells, MemIndex, CmpFlags, FoldPath, Idx,
         WordOf, Offset, ItemAt, InstrAt, Program, InRange;
    Items56();
    Reading(s, 3);
    Put(s, 15, MixCells(s.r15, s.r3, 15), s.(r15 := MixCells(s.r15, s.r3, 15)));
    Reading(s, 15);
    FileInRange(s, 57, true);
    var m := At(s, 57, true);
    TurnMix(m, 57, 15, 3);
    OneTurn(s, 57, true, s.(r15 := MixCells(s.r15, s.r3, 15)), 58, true);
  }

  lemma Go58(s: File)
    requires |s.mem| == VM_MEM_WORDS
    ensures Leads(s, 58, true, 1, s, 35, false)
  {
    hide Leads, Goes, Registers, AluOp, Complement, ShiftOp, HashCells, MixCells, MemIndex, CmpFlags, FoldPath, Idx,
         WordOf, Offset, ItemAt, InstrAt, Program, InRange;
    Items56();
    FileInRange(s, 58, true);
    var m := At(s, 58, true);
    TurnRet(m, 58, 35);
    OneTurn(s, 58, true, s, 35, false);
  }
}
