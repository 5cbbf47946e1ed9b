/** One turn of the canonical program on item indices, for each kind of instruction. */
module CanonicalTurns {
  import opened ByteStrings
  import opened Isa
  import opened Assembler
  import opened LabelMachine
  import opened Lockstep
  import opened CanonicalProgram

  /** The machine is about to execute item k: its ip is there, or at the label in front of it. */
  ghost predicate Here(m: Machine, k: nat) {
    && InRange(Program(), m) && !m.halted
    && k < LENGTH && ItemAt(k).Emit?
    && (m.ip == k || (m.ip + 1 == k && ItemAt(m.ip).Label?))
  }

  /** One turn leads from m to m'. */
  ghost predicate Goes(m: Machine, m': Machine) {
    && InRange(Program(), m) && !m.halted
    && LabelStep(Program(), m) == Some(m')
    && InRange(Program(), m')
  }

  lemma Turn(m: Machine, k: nat)
    requires Here(m, k)
    ensures LabelStep(Program(), m) == Exec(InstrAt(k), m.(ip := k + 1), Offset(Program(), k + 1))
    ensures LabelStep(Program(), m).Some? ==> InRange(Program(), LabelStep(Program(), m).value)
  {
    SkipsTo(m, k);
    ProgramWellFormed();
    MeaningOf(k);
    hide InstrAt, ItemAt, Offset, Exec, Meaning;
    LabelTurn(Program(), m, k);
    StepsTogether(Program(), m, true);
  }

  lemma SkipsTo(m: Machine, k: nat)
    requires Here(m, k)
    ensures Skip(Program(), m.ip) == k
  {
    hide ItemAt;
  }

  lemma TurnMovRI(m: Machine, k: nat, rd: byte, imm: Cell)
    requires Here(m, k) && InstrAt(k) == MovRI(rd, imm) && rd < 16
    ensures Goes(m, m.(ip := k + 1, reg := m.reg[rd := imm]))
  {
    hide InstrAt, Offset;
    Turn(m, k);
  }

  lemma TurnMovRR(m: Machine, k: nat, rd: byte, rs: byte)
    requires Here(m, k) && InstrAt(k) == MovRR(rd, rs) && rd < 16 && rs < 16
    ensures Goes(m, m.(ip := k + 1, reg := m.reg[rd := m.reg[rs]]))
  {
    hide InstrAt, Offset;
    Turn(m, k);
  }

  lemma TurnLoad(m: Machine, k: nat, rd: byte, ra: byte)
    requires Here(m, k) && InstrAt(k) == Load(rd, ra) && rd < 16 && ra < 16
    ensures Goes(m, m.(ip := k + 1, reg := m.reg[rd := m.mem[MemIndex(m.reg[ra])]]))
  {
    hide InstrAt, Offset, MemIndex;
    Turn(m, k);
  }

  lemma TurnStore(m: Machine, k: nat, ra: byte, rs: byte)
    requires Here(m, k) && InstrAt(k) == Store(ra, rs) && ra < 16 && rs < 16
    ensures Goes(m, m.(ip := k + 1, mem := m.mem[MemIndex(m.reg[ra]) := m.reg[rs]]))
  {
    hide InstrAt, Offset, MemIndex;
    Turn(m, k);
  }

  lemma TurnAlu(m: Machine, k: nat, o: Op, rd: byte, ra: byte, rb: byte)
    requires Here(m, k) && InstrAt(k) == Alu(o, rd, ra, rb) && rd < 16 && ra < 16 && rb < 16
    ensures Goes(m, m.(ip := k + 1, reg := m.reg[rd := AluOp(o, m.reg[ra], m.reg[rb])]))
  {
    hide InstrAt, Offset, AluOp;
    Turn(m, k);
  }

  lemma TurnNot(m: Machine, k: nat, rd: byte, ra: byte)
    requires Here(m, k) && InstrAt(k) == Not(rd, ra) && rd < 16 && ra < 16
    ensures Goes(m, m.(ip := k + 1, reg := m.reg[rd := Complement(m.reg[ra])]))
  {
    hide InstrAt, Offset, Complement;
    Turn(m, k);
  }

  lemma TurnShift(m: Machine, k: nat, o: Op, rd: byte, ra: byte, n: byte)
    requires Here(m, k) && InstrAt(k) == ShiftBy(o, rd, ra, n) && rd < 16 && ra < 16
    ensures Goes(m, m.(ip := k + 1, reg := m.reg[rd := ShiftOp(o, m.reg[ra], n)]))
  {
    hide InstrAt, Offset, ShiftOp;
    Turn(m, k);
  }

  lemma TurnHash(m: Machine, k: nat, rd: byte, ra: byte, rb: byte)
    requires Here(m, k) && InstrAt(k) == Hash(rd, ra, rb) && rd < 16 && ra < 16 && rb < 16
    ensures Goes(m, m.(ip := k + 1, reg := m.reg[rd := HashCells(m.reg[ra], m.reg[rb])]))
  {
    hide InstrAt, Offset, HashCells;
    Turn(m, k);
  }

  lemma TurnMix(m: Machine, k: nat, rd: byte, ra: byte)
    requires Here(m, k) && InstrAt(k) == MixIn(rd, ra) && rd < 16 && ra < 16
    ensures Goes(m, m.(ip := k + 1, reg := m.reg[rd := MixCells(m.reg[rd], m.reg[ra], rd)]))
  {
    hide InstrAt, Offset, MixCells;
    Turn(m, k);
  }

  lemma TurnCmp(m: Machine, k: nat, ra: byte, rb: byte)
    requires Here(m, k) && InstrAt(k) == Cmp(ra, rb) && ra < 16 && rb < 16
    ensures Goes(m, m.(ip := k + 1, flags := CmpFlags(m.reg[ra], m.reg[rb])))
  {
    hide InstrAt, Offset, CmpFlags;
    Turn(m, k);
  }

  lemma TurnCMovNotZero(m: Machine, k: nat, rd: byte, rs: byte)
    requires Here(m, k) && InstrAt(k) == CMov(rd, rs, 1) && rd < 16 && rs < 16
    ensures Goes(m, m.(ip := k + 1, reg := if m.flags.zf then m.reg else m.reg[rd := m.reg[rs]]))
  {
    hide InstrAt, Offset;
    Turn(m, k);
  }

  lemma TurnJmp(m: Machine, k: nat, target: nat)
    requires Here(m, k) && InstrAt(k) == Jmp(target)
    ensures Goes(m, m.(ip := target))
  {
    hide InstrAt, Offset;
    Turn(m, k);
  }

  lemma TurnJcc(m: Machine, k: nat, ifZero: bool, target: nat)
    requires Here(m, k) && InstrAt(k) == Jcc(ifZero, target)
    ensures Goes(m, m.(path := FoldPath(m.path, Offset(Program(), k + 1), ifZero == m.flags.zf),
                    ip := if ifZero == m.flags.zf then target else k + 1))
  {
    hide InstrAt, Offset, FoldPath;
    Turn(m, k);
  }

  lemma TurnCall(m: Machine, k: nat, target: nat)
    requires Here(m, k) && InstrAt(k) == Call(target)
    ensures Goes(m, m.(stack := m.stack + [k + 1], ip := target))
  {
    hide InstrAt, Offset;
    Turn(m, k);
  }

  lemma TurnRet(m: Machine, k: nat, ret: nat)
    requires Here(m, k) && InstrAt(k) == Ret && m.stack == [ret]
    ensures Goes(m, m.(stack := [], ip := ret))
  {
    hide InstrAt, Offset;
    Turn(m, k);
  }

  lemma TurnNop(m: Machine, k: nat)
    requires Here(m, k) && InstrAt(k) == Nop
    ensures Goes(m, m.(ip := k + 1))
  {
    hide InstrAt, Offset;
    Turn(m, k);
  }

  lemma TurnHalt(m: Machine, k: nat, code: byte)
    requires Here(m, k) && InstrAt(k) == Halt(code)
    ensures Goes(m, m.(ip := k + 1, halted := true, haltOperand := code))
  {
    hide InstrAt, Offset;
    Turn(m, k);
  }

  // ---- several turns ----------------------------------------------------------------------------------------

  /** The machine after n turns, if it neither raises nor halts before. */
  function Turns(m: Machine, n: nat): Option<Machine>
    requires InRange(Program(), m)
    decreases n
  {
    if n == 0 then Some(m)
    else if m.halted then None
    else
      match LabelStep(Program(), m)
      case None => None
      case Some(m') =>
        ProgramWellFormed();
        StepsTogether(Program(), m, true);
        Turns(m', n - 1)
  }

  lemma TurnsUnfold(m: Machine, n: nat)
    requires InRange(Program(), m) && n > 0 && !m.halted && LabelStep(Program(), m).Some?
    ensures InRange(Program(), LabelStep(Program(), m).value)
    ensures Turns(m, n) == Turns(LabelStep(Program(), m).value, n - 1)
  {
    hide LabelStep;
    ProgramWellFormed();
    StepsTogether(Program(), m, true);
    hide WellFormed;
  }

  lemma TurnsStops(m: Machine, n: nat)
    requires InRange(Program(), m) && n > 0 && Turns(m, n).Some?
    ensures !m.halted && LabelStep(Program(), m).Some?
  {
    hide LabelStep;
  }

  lemma TurnsZero(m: Machine)
    requires InRange(Program(), m)
    ensures Turns(m, 0) == Some(m)
  {}

  lemma {:induction false} Extend(m: Machine, n: nat, a: Machine, b: Machine)
    requires InRange(Program(), m) && Turns(m, n) == Some(a) && Goes(a, b)
    ensures Turns(m, n + 1) == Some(b)
    decreases n
  {
    hide Turns, LabelStep, InRange;
    TurnsZero(m);
    TurnsZero(b);
    if n > 0 { TurnsStops(m, n); }
    TurnsUnfold(m, n + 1);
    if n > 0 {
      TurnsUnfold(m, n);
      Extend(LabelStep(Program(), m).value, n - 1, a, b);
    }
  }

  lemma {:induction false} Join(m: Machine, n: nat, a: Machine, n': nat)
    requires InRange(Program(), m) && InRange(Program(), a) && Turns(m, n) == Some(a)
    ensures Turns(m, n + n') == Turns(a, n')
    decreases n
  {
    hide Turns, LabelStep, InRange;
    TurnsZero(m);
    if n > 0 {
      TurnsStops(m, n);
      TurnsUnfold(m, n);
      TurnsUnfold(m, n + n');
      Join(LabelStep(Program(), m).value, n - 1, a, n');
    }
  }

  /** A machine that halts after n turns is what the bounded main loop stops in. */
  lemma {:induction false} HaltsIn(m: Machine, n: nat, a: Machine, steps: nat)
    requires InRange(Program(), m) && Turns(m, n) == Some(a) && a.halted && steps + n <= MAX_STEPS
    ensures WellFormed(Program()) && LabelRun(Program(), m, steps) == Some(a)
    decreases n
  {
    ProgramWellFormed();
    hide Turns, LabelStep, WellFormed, InRange;
    TurnsZero(m);
    if n > 0 {
      TurnsStops(m, n);
      TurnsUnfold(m, n);
      HaltsIn(LabelStep(Program(), m).value, n - 1, a, steps + 1);
    }
  }
}
