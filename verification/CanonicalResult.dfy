/** What both engines hand back for the assembled canonical program, for every memory. */
module CanonicalResult {
  import opened ByteStrings
  import opened Crypto
  import opened Isa
  import opened Assembler
  import opened LabelMachine
  import opened Lockstep
  import opened CanonicalProgram
  import opened CanonicalTurns
  import opened CanonicalSpec
  import opened CanonicalItems
  import opened CanonicalRun

  // ---- the prologue -----------------------------------------------------------------------------------------

  lemma AccumulatorItems()
    ensures ItemAt(0).Emit? && InstrAt(0) == MovRI(12, Start().r12)
    ensures ItemAt(1).Emit? && InstrAt(1) == MovRI(13, Start().r13)
    ensures ItemAt(2).Emit? && InstrAt(2) == MovRI(14, Start().r14)
    ensures ItemAt(3).Emit? && InstrAt(3) == MovRI(15, Start().r15)
  {
    Immediate12();
    Immediate13();
    Immediate14();
    Immediate15();
    hide WordOf;
  }

  lemma CounterItems()
    ensures ItemAt(4).Emit? && InstrAt(4) == MovRI(0, Idx(0))
    ensures ItemAt(5).Emit? && InstrAt(5) == MovRI(1, Idx(22))
    ensures ItemAt(6).Emit? && InstrAt(6) == MovRI(6, ONE)
    ensures ItemAt(7).Emit? && InstrAt(7) == MovRI(8, ZERO)
  {
    SmallImmediates();
    CountingDown();
    hide WordOf, Idx;
  }

  lemma LoadAccumulators(m: Machine) returns (t: Machine)
    requires InRange(Program(), m) && !m.halted && m.ip == 0
    ensures Turns(m, 4) == Some(t) && InRange(Program(), t)
    ensures var a := Start(); t == m.(ip := 4, reg := m.reg[12 := a.r12][13 := a.r13][14 := a.r14][15 := a.r15])
  {
    hide Turns, LabelStep, Start, Offset, ItemAt, InstrAt, Program;
    AccumulatorItems();
    TurnsZero(m);
    TurnMovRI(m, 0, 12, Start().r12);
    var m1 := m.(ip := 1, reg := m.reg[12 := Start().r12]);
    Extend(m, 0, m, m1);
    TurnMovRI(m1, 1, 13, Start().r13);
    var m2 := m1.(ip := 2, reg := m1.reg[13 := Start().r13]);
    Extend(m, 1, m1, m2);
    TurnMovRI(m2, 2, 14, Start().r14);
    var m3 := m2.(ip := 3, reg := m2.reg[14 := Start().r14]);
    Extend(m, 2, m2, m3);
    TurnMovRI(m3, 3, 15, Start().r15);
    t := m3.(ip := 4, reg := m3.reg[15 := Start().r15]);
    Extend(m, 3, m3, t);
  }

  lemma LoadCounters(m: Machine) returns (t: Machine)
    requires InRange(Program(), m) && !m.halted && m.ip == 4
    ensures Turns(m, 4) == Some(t) && InRange(Program(), t)
    ensures t == m.(ip := 8, reg := m.reg[0 := Idx(0)][1 := Idx(22)][6 := ONE][8 := ZERO])
  {
    hide Turns, LabelStep, Idx, Offset, ItemAt, InstrAt, Program;
    CounterItems();
    TurnsZero(m);
    TurnMovRI(m, 4, 0, Idx(0));
    var m1 := m.(ip := 5, reg := m.reg[0 := Idx(0)]);
    Extend(m, 0, m, m1);
    TurnMovRI(m1, 5, 1, Idx(22));
    var m2 := m1.(ip := 6, reg := m1.reg[1 := Idx(22)]);
    Extend(m, 1, m1, m2);
    TurnMovRI(m2, 6, 6, ONE);
    var m3 := m2.(ip := 7, reg := m2.reg[6 := ONE]);
    Extend(m, 2, m2, m3);
    TurnMovRI(m3, 7, 8, ZERO);
    t := m3.(ip := 8, reg := m3.reg[8 := ZERO]);
    Extend(m, 3, m3, t);
  }

  /** The registers at the head of the loop. */
  function Entry(mem: seq<Cell>): File {
    var a := Start();
    File(Idx(0), ZERO, ZERO, ZERO, ZERO, ZERO, ZERO, ZERO, ZERO, a.r12, a.r13, a.r14, a.r15, mem, CLEAR, a.path)
  }

  lemma Prologue(mem: seq<Cell>)
    requires |mem| == VM_MEM_WORDS
    ensures InRange(Program(), Initial(mem)) && Turns(Initial(mem), 8) == Some(At(Entry(mem), 8, false))
    ensures InRange(Program(), At(Entry(mem), 8, false)) && Looping(Entry(mem), mem, 0, Start())
  {
    hide Turns, LabelStep, Idx, Program;
    var m0 := Initial(mem);
    var m1 := LoadAccumulators(m0);
    var m2 := LoadCounters(m1);
    Join(m0, 4, m1, 4);
    assert m2.reg == Registers(Entry(mem));
  }

  // ---- the whole run ----------------------------------------------------------------------------------------

  /** How many turns the program takes: one more for each odd word. */
  function TurnCount(mem: seq<Cell>): nat
    requires |mem| == VM_MEM_WORDS
  { 379 + OddWords(mem, 22) }

  lemma {:induction false} OddWordsBound(mem: seq<Cell>, k: nat)
    requires k <= |mem|
    ensures OddWords(mem, k) <= k
  {
    hide Even;
    if k > 0 { OddWordsBound(mem, k - 1); }
  }

  /** What a machine that ran the program looks like; `at` is where the HALT leaves its ip. */
  ghost predicate Delivers(m: Machine, mem: seq<Cell>, at: nat)
    requires |mem| == VM_MEM_WORDS
  {
    var a := Output(mem);
    && m.Valid() && m.halted && m.haltOperand == 0x42 && m.ip == at && m.stack == []
    && m.flags == Flags(true, false, false) && m.path == a.path
    && m.mem == mem[21 := StoredWord(mem)]
    && m.reg == Registers(Final(mem)) && m.reg[12..16] == [a.r12, a.r13, a.r14, a.r15]
  }

  /** The HALT. */
  lemma Halting(mem: seq<Cell>) returns (m: Machine)
    requires |mem| == VM_MEM_WORDS
    ensures var s := Final(mem);
            InRange(Program(), At(s, 35, false)) && Goes(At(s, 35, false), m) && Delivers(m, mem, 36)
  {
    hide Goes, Final, Output, StoredWord, Offset, ItemAt, InstrAt, Idx, LabelStep, InRange, Program, Registers;
    HaltItem();
    var s := Final(mem);
    FinalCarries(mem);
    FileInRange(s, 35, false);
    TurnHalt(At(s, 35, false), 35, 0x42);
    m := At(s, 35, false).(ip := 36, halted := true, haltOperand := 0x42);
    Accumulators(s);
  }

  lemma Accumulators(s: File)
    ensures Registers(s)[12..16] == [s.r12, s.r13, s.r14, s.r15]
  {
    hide Idx;
  }

  lemma HaltItem()
    ensures ItemAt(35).Emit? && InstrAt(35) == Halt(0x42)
  {}

  /** For every memory the items run to the HALT in exactly that many turns. */
  lemma RunsToHalt(mem: seq<Cell>) returns (m: Machine)
    requires |mem| == VM_MEM_WORDS
    ensures InRange(Program(), Initial(mem)) && InRange(Program(), m)
    ensures Turns(Initial(mem), TurnCount(mem)) == Some(m) && Delivers(m, mem, 36)
  {
    hide Turns, LabelStep, InRange, At, Looping, Carries, OddWords, Entry, Start, Final, Delivers, Goes, Program;
    Prologue(mem);
    var s := RunToHalt(Entry(mem), mem);
    m := Halting(mem);
    var n := 370 + OddWords(mem, 22);
    LeadsTurns(Entry(mem), 8, false, n, s, 35, false);
    Join(Initial(mem), 8, At(Entry(mem), 8, false), n);
    Extend(Initial(mem), n + 8, At(s, 35, false), m);
    GoesInRange(At(s, 35, false), m);
  }

  lemma LeadsTurns(s: File, k: nat, inside: bool, n: nat, s': File, k': nat, inside': bool)
    requires Leads(s, k, inside, n, s', k', inside')
    ensures InRange(Program(), At(s, k, inside)) && InRange(Program(), At(s', k', inside'))
    ensures Turns(At(s, k, inside), n) == Some(At(s', k', inside'))
  {}

  lemma GoesInRange(m: Machine, m': Machine)
    requires Goes(m, m')
    ensures InRange(Program(), m')
  {}

  // ---- at byte level ----------------------------------------------------------------------------------------

  /** The engine after exactly n turns, if it neither raises nor halts before. */
  function ByteTurns(code: Bytes, m: Machine, n: nat, strict: bool): Option<Machine>
    requires m.Valid()
    decreases n
  {
    if n == 0 then Some(m)
    else if m.halted then None
    else
      match Step(code, m, strict)
      case None => None
      case Some(m') =>
        StepValid(code, m, strict);
        ByteTurns(code, m', n - 1, strict)
  }

  lemma ByteTurnsUnfold(code: Bytes, m: Machine, n: nat, strict: bool)
    requires m.Valid() && n > 0 && !m.halted && Step(code, m, strict).Some?
    ensures Step(code, m, strict).value.Valid()
    ensures ByteTurns(code, m, n, strict) == ByteTurns(code, Step(code, m, strict).value, n - 1, strict)
  {
    hide Step;
    StepValid(code, m, strict);
  }

  lemma ByteTurnsZero(code: Bytes, m: Machine, strict: bool)
    requires m.Valid()
    ensures ByteTurns(code, m, 0, strict) == Some(m)
  {}

  lemma {:induction false} TurnsAtBytes(m: Machine, n: nat, a: Machine, strict: bool)
    requires InRange(Program(), m) && InRange(Program(), a) && Turns(m, n) == Some(a)
    ensures Assembled(Program()).Some?
    ensures ByteTurns(Assembled(Program()).value, AtBytes(Program(), m), n, strict) == Some(AtBytes(Program(), a))
    decreases n
  {
    ProgramWellFormed();
    hide Turns, ByteTurns, LabelStep, Step, Program, WellFormed, Assembled, InRange;
    StepsTogether(Program(), m, strict);
    TurnsZero(m);
    if n == 0 {
      ByteTurnsZero(Assembled(Program()).value, AtBytes(Program(), m), strict);
    } else {
      TurnsStops(m, n);
      TurnsUnfold(m, n);
      TurnsAtBytes(LabelStep(Program(), m).value, n - 1, a, strict);
      ByteTurnsUnfold(Assembled(Program()).value, AtBytes(Program(), m), n, strict);
    }
  }

  lemma StartAtBytes(mem: seq<Cell>)
    requires |mem| == VM_MEM_WORDS && InRange(Program(), Initial(mem))
    ensures AtBytes(Program(), Initial(mem)) == Initial(mem)
  {
    hide Program;
  }

  lemma EndAtBytes(m: Machine, mem: seq<Cell>)
    requires |mem| == VM_MEM_WORDS && InRange(Program(), m) && Delivers(m, mem, 36)
    ensures Delivers(AtBytes(Program(), m), mem, 164)
  {
    hide Program, Offset, Output, StoredWord, Final, Registers;
    Offsets29();
  }

  /**
   The assembled program is correct on both engines: 242 bytes that halt with operand 0x42 after exactly
   379 turns and one more for each odd word among the first 22, with everything `Delivers` lists.
   */
  lemma CanonicalProgramCorrect(mem: seq<Cell>, strict: bool)
    requires |mem| == VM_MEM_WORDS
    ensures Assembled(Program()).Some? && |Assembled(Program()).value| == 242
    ensures var code := Assembled(Program()).value;
            var r := Run(code, Initial(mem), 0, strict);
            r.Some? && Delivers(r.value, mem, 164) && ByteTurns(code, Initial(mem), TurnCount(mem), strict) == r
  {
    ProgramWellFormed();
    Offsets46();
    OddWordsBound(mem, 22);
    hide WellFormed, Turns, ByteTurns, LabelRun, Run, Delivers, Program, Assembled, Offset, InRange, AtBytes, OddWords;
    Assembles(Program());
    var m := RunsToHalt(mem);
    DeliversHalted(m, mem);
    HaltsIn(Initial(mem), TurnCount(mem), m, 0);
    StartAtBytes(mem);
    EndAtBytes(m, mem);
    TurnsAtBytes(Initial(mem), TurnCount(mem), m, strict);
    AssemblyPreservesMeaning(Program(), Initial(mem), 0, strict);
  }

  lemma DeliversHalted(m: Machine, mem: seq<Cell>)
    requires |mem| == VM_MEM_WORDS && Delivers(m, mem, 36)
    ensures m.halted
  {}

  /** What the state hash covers: all registers, no stack, ZF, ip 164 and the path. */
  function FinalStateBytes(mem: seq<Cell>): Bytes
    requires |mem| == VM_MEM_WORDS
  { CellsBytes(Registers(Final(mem))) + [1] + BigEndian(164, 2) + Be32(Output(mem).path.v) }

  lemma StateIs(m: Machine, mem: seq<Cell>)
    requires |mem| == VM_MEM_WORDS && Delivers(m, mem, 164)
    ensures StateBytes(m) == FinalStateBytes(mem)
  {
    hide CellsBytes, BigEndian, Be32, Final, Registers, Output, StoredWord;
    assert AddressesBytes([]) == [] && CellsBytes(m.reg) + [] == CellsBytes(m.reg);
  }

  lemma FinishIs(p: Primitives, m: Machine, mem: seq<Cell>)
    requires Lawful(p) && |mem| == VM_MEM_WORDS && Delivers(m, mem, 164)
    ensures m.Valid()
    ensures var r, a := Finish(p, m), Output(mem);
            && r.digest == CellsBytes([a.r12, a.r13, a.r14, a.r15])
            && r.stateHash == p.blake2b(FinalStateBytes(mem), [], 32)
            && r.pathId == a.path.v && r.haltCode == HaltCode(0x42, a.path)
  {
    assert forall d :: Blake2b(p, d, [], 32) == p.blake2b(d, [], 32);
    hide Output, Final, Registers, FinalStateBytes, StateBytes, CellsBytes, Blake2b, HaltCode, StoredWord, Lawful;
    StateIs(m, mem);
  }

  lemma HaltCodeIs(path: Path)
    ensures HaltCode(0x42, path) == 0x42 ^ (path.v & 0xFF)
  {}

  /** The result that leaves the VM, all four parts of it as functions of the memory. */
  lemma CanonicalResultIs(p: Primitives, mem: seq<Cell>, strict: bool)
    requires Lawful(p) && |mem| == VM_MEM_WORDS
    ensures Assembled(Program()).Some?
    ensures var r, a := ResultOf(p, Assembled(Program()).value, mem, strict), Output(mem);
            && r.Some? && r.value.digest == CellsBytes([a.r12, a.r13, a.r14, a.r15])
            && r.value.stateHash == p.blake2b(FinalStateBytes(mem), [], 32)
            && r.value.pathId == a.path.v && r.value.haltCode == 0x42 ^ (a.path.v & 0xFF)
  {
    hide Run, Program, Assembled, Output, Delivers, FinalStateBytes, CellsBytes, Finish, HaltCode, Lawful;
    HaltCodeIs(Output(mem).path);
    CanonicalProgramCorrect(mem, strict);
    FinishIs(p, Run(Assembled(Program()).value, Initial(mem), 0, strict).value, mem);
  }
}
