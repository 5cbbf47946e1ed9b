/** The canonical program of tools/generate_vm_bytecode.py, as items and as instructions. */
module CanonicalProgram {
  import opened ByteStrings
  import opened Isa
  import opened Assembler
  import opened LabelMachine
  import opened Lockstep

  const LENGTH: nat := 59

  /** The items in the order `build_program` emits them. */
  function ItemAt(k: nat): Item {
    match k
    // init accumulators, index and constants
    case 0 => Emit(MOV_RI, [Num(12), Num(0x0123_4567_89AB_CDEF)])
    case 1 => Emit(MOV_RI, [Num(13), Num(0xDEAD_BEEF_CAFE_BABE)])
    case 2 => Emit(MOV_RI, [Num(14), Num(0xA5A5_A5A5_5A5A_5A5A)])
    case 3 => Emit(MOV_RI, [Num(15), Num(0xF0E1_D2C3_B4A5_9687)])
    case 4 => Emit(MOV_RI, [Num(0), Num(0)])
    case 5 => Emit(MOV_RI, [Num(1), Num(22)])
    case 6 => Emit(MOV_RI, [Num(6), Num(1)])
    case 7 => Emit(MOV_RI, [Num(8), Num(0)])
    // the fold loop
    case 8 => Label("loop")
    case 9 => Emit(CMP, [Num(0), Num(1)])
    case 10 => Emit(JZ, [Ref("end")])
    case 11 => Emit(MOV_RR, [Num(7), Num(0)])
    case 12 => Emit(LOAD, [Num(2), Num(7)])
    case 13 => Emit(HASH_ROUND, [Num(12), Num(12), Num(2)])
    case 14 => Emit(MIX, [Num(13), Num(2)])
    case 15 => Emit(AND, [Num(3), Num(2), Num(6)])
    case 16 => Emit(CMP, [Num(3), Num(8)])
    case 17 => Emit(JZ, [Ref("even")])
    case 18 => Emit(HASH_ROUND, [Num(15), Num(15), Num(2)])
    case 19 => Emit(ROL, [Num(15), Num(15), Num(7)])
    case 20 => Emit(JMP, [Ref("after")])
    case 21 => Label("even")
    case 22 => Emit(HASH_ROUND, [Num(14), Num(14), Num(2)])
    case 23 => Emit(ROR, [Num(14), Num(14), Num(11)])
    case 24 => Label("after")
    case 25 => Emit(XOR, [Num(12), Num(12), Num(14)])
    case 26 => Emit(ADD, [Num(13), Num(13), Num(15)])
    case 27 => Emit(ADD, [Num(0), Num(0), Num(6)])
    case 28 => Emit(JMP, [Ref("loop")])
    // avalanche and the call
    case 29 => Label("end")
    case 30 => Emit(HASH_ROUND, [Num(12), Num(12), Num(13)])
    case 31 => Emit(HASH_ROUND, [Num(13), Num(13), Num(14)])
    case 32 => Emit(HASH_ROUND, [Num(14), Num(14), Num(15)])
    case 33 => Emit(HASH_ROUND, [Num(15), Num(15), Num(12)])
    case 34 => Emit(CALL, [Ref("finalize")])
    case 35 => Emit(HALT, [Num(0x42)])
    // the subroutine up to its inner loop
    case 36 => Label("finalize")
    case 37 => Emit(NOP, [])
    case 38 => Emit(NOT, [Num(3), Num(12)])
    case 39 => Emit(OR, [Num(4), Num(13), Num(3)])
    case 40 => Emit(SUB, [Num(5), Num(14), Num(15)])
    case 41 => Emit(MUL, [Num(9), Num(5), Num(6)])
    case 42 => Emit(SHL, [Num(10), Num(4), Num(3)])
    case 43 => Emit(SHR, [Num(11), Num(4), Num(5)])
    case 44 => Emit(XOR, [Num(4), Num(10), Num(11)])
    case 45 => Emit(MOV_RI, [Num(0), Num(3)])
    // the inner loop and the way back
    case 46 => Label("inner")
    case 47 => Emit(HASH_ROUND, [Num(9), Num(9), Num(4)])
    case 48 => Emit(CMP, [Num(9), Num(8)])
    case 49 => Emit(CMOV, [Num(5), Num(9), Num(1)])
    case 50 => Emit(SUB, [Num(0), Num(0), Num(6)])
    case 51 => Emit(CMP, [Num(0), Num(8)])
    case 52 => Emit(JNZ, [Ref("inner")])
    case 53 => Emit(STORE, [Num(7), Num(9)])
    case 54 => Emit(XOR, [Num(12), Num(12), Num(9)])
    case 55 => Emit(ADD, [Num(13), Num(13), Num(5)])
    case 56 => Emit(XOR, [Num(14), Num(14), Num(4)])
    case 57 => Emit(MIX, [Num(15), Num(3)])
    case _ => Emit(RET, [])
  }

  function Program(): (items: seq<Item>)
    ensures |items| == LENGTH
  { seq(LENGTH, k requires 0 <= k < LENGTH => ItemAt(k)) }

  // ---- build_program ----------------------------------------------------------------------------------------

  /** One `emit` or `label` call: it adds item k. */
  method Add(a: Assembler, it: Item, k: nat)
    requires a.Valid() && k < LENGTH && a.items == Program()[..k] && it == ItemAt(k)
    modifies a`items
    ensures a.Valid() && a.items == Program()[..k + 1]
  {
    hide ItemAt;
    assert Program()[..k + 1] == Program()[..k] + [ItemAt(k)];
    match it {
      case Label(name) => a.AddLabel(name);
      case Emit(op, operands) => a.AddEmit(op, operands);
    }
  }

  method BuildProgram() returns (code: Bytes)
    ensures Assembled(Program()) == Some(code)
  {
    var a := new Assembler();
    hide ItemAt, Assembled;
    assert a.items == Program()[..0];
    for k := 0 to LENGTH
      invariant a.Valid() && a.items == Program()[..k]
    {
      Add(a, ItemAt(k), k);
    }
    assert a.items == Program();
    var r := a.Assemble();
    ProgramWellFormed();
    Assembles(Program());
    code := r.value;
  }

  // ---- what the items mean ----------------------------------------------------------------------------------

  /** The instruction of item k, with item indices as targets; Unknown for a label. */
  function InstrAt(k: nat): Instr {
    match k
    case 0 => MovRI(12, Cell(WordOf(0x0123_4567_89AB_CDEF)))
    case 1 => MovRI(13, Cell(WordOf(0xDEAD_BEEF_CAFE_BABE)))
    case 2 => MovRI(14, Cell(WordOf(0xA5A5_A5A5_5A5A_5A5A)))
    case 3 => MovRI(15, Cell(WordOf(0xF0E1_D2C3_B4A5_9687)))
    case 4 => MovRI(0, Cell(WordOf(0)))
    case 5 => MovRI(1, Cell(WordOf(22)))
    case 6 => MovRI(6, Cell(WordOf(1)))
    case 7 => MovRI(8, Cell(WordOf(0)))
    case 8 => Unknown
    case 9 => Cmp(0, 1)
    case 10 => Jcc(true, 29)
    case 11 => MovRR(7, 0)
    case 12 => Load(2, 7)
    case 13 => Hash(12, 12, 2)
    case 14 => MixIn(13, 2)
    case 15 => Alu(AND, 3, 2, 6)
    case 16 => Cmp(3, 8)
    case 17 => Jcc(true, 21)
    case 18 => Hash(15, 15, 2)
    case 19 => ShiftBy(ROL, 15, 15, 7)
    case 20 => Jmp(24)
    case 21 => Unknown
    case 22 => Hash(14, 14, 2)
    case 23 => ShiftBy(ROR, 14, 14, 11)
    case 24 => Unknown
    case 25 => Alu(XOR, 12, 12, 14)
    case 26 => Alu(ADD, 13, 13, 15)
    case 27 => Alu(ADD, 0, 0, 6)
    case 28 => Jmp(8)
    case 29 => Unknown
    case 30 => Hash(12, 12, 13)
    case 31 => Hash(13, 13, 14)
    case 32 => Hash(14, 14, 15)
    case 33 => Hash(15, 15, 12)
    case 34 => Call(36)
    case 35 => Halt(0x42)
    case 36 => Unknown
    case 37 => Nop
    case 38 => Not(3, 12)
    case 39 => Alu(OR, 4, 13, 3)
    case 40 => Alu(SUB, 5, 14, 15)
    case 41 => Alu(MUL, 9, 5, 6)
    case 42 => ShiftBy(SHL, 10, 4, 3)
    case 43 => ShiftBy(SHR, 11, 4, 5)
    case 44 => Alu(XOR, 4, 10, 11)
    case 45 => MovRI(0, Cell(WordOf(3)))
    case 46 => Unknown
    case 47 => Hash(9, 9, 4)
    case 48 => Cmp(9, 8)
    case 49 => CMov(5, 9, 1)
    case 50 => Alu(SUB, 0, 0, 6)
    case 51 => Cmp(0, 8)
    case 52 => Jcc(false, 46)
    case 53 => Store(7, 9)
    case 54 => Alu(XOR, 12, 12, 9)
    case 55 => Alu(ADD, 13, 13, 5)
    case 56 => Alu(XOR, 14, 14, 4)
    case 57 => MixIn(15, 3)
    case _ => Ret
  }

  lemma {:induction false} IndexOfSuffix(items: seq<Item>, name: string, at: nat, k: nat)
    requires at < k <= |items| && items[at] == Label(name)
    requires forall j :: at < j < k ==> items[j] != Label(name)
    ensures name in LabelIndex(items, k) && LabelIndex(items, k)[name] == at
  {
    if k > at + 1 { IndexOfSuffix(items, name, at, k - 1); }
  }

  lemma Bytes1(a: Operand)
    requires a.Num? && 0 <= a.n < 256
    ensures NumBytes([a]) == Some([a.n])
  {
    var none: seq<Operand> := [];
    assert NumBytes(none) == Some([]);
    assert [a][1..] == none;
    assert [a.n] + [] == [a.n];
  }

  lemma Bytes2(a: Operand, b: Operand)
    requires a.Num? && 0 <= a.n < 256 && b.Num? && 0 <= b.n < 256
    ensures NumBytes([a, b]) == Some([a.n, b.n])
  {
    assert [a, b][1..] == [b];
    Bytes1(b);
    assert [a.n] + [b.n] == [a.n, b.n];
  }

  lemma Bytes3(a: Operand, b: Operand, c: Operand)
    requires a.Num? && 0 <= a.n < 256 && b.Num? && 0 <= b.n < 256 && c.Num? && 0 <= c.n < 256
    ensures NumBytes([a, b, c]) == Some([a.n, b.n, c.n])
  {
    assert [a, b, c][1..] == [b, c];
    Bytes2(b, c);
    assert [a.n] + [b.n, c.n] == [a.n, b.n, c.n];
  }

  lemma LabelAt_loop()
    ensures TargetItem(Program(), Ref("loop")) == Some(8)
  {
    IndexOfSuffix(Program(), "loop", 8, LENGTH);
    hide ItemAt;
  }

  lemma LabelAt_even()
    ensures TargetItem(Program(), Ref("even")) == Some(21)
  {
    IndexOfSuffix(Program(), "even", 21, LENGTH);
    hide ItemAt;
  }

  lemma LabelAt_after()
    ensures TargetItem(Program(), Ref("after")) == Some(24)
  {
    IndexOfSuffix(Program(), "after", 24, LENGTH);
    hide ItemAt;
  }

  lemma LabelAt_end()
    ensures TargetItem(Program(), Ref("end")) == Some(29)
  {
    IndexOfSuffix(Program(), "end", 29, LENGTH);
    hide ItemAt;
  }

  lemma LabelAt_finalize()
    ensures TargetItem(Program(), Ref("finalize")) == Some(36)
  {
    IndexOfSuffix(Program(), "finalize", 36, LENGTH);
    hide ItemAt;
  }

  lemma LabelAt_inner()
    ensures TargetItem(Program(), Ref("inner")) == Some(46)
  {
    IndexOfSuffix(Program(), "inner", 46, LENGTH);
    hide ItemAt;
  }

  lemma MeaningMoves(k: nat)
    requires k in {0, 1, 2, 3, 4, 5, 6, 7, 45}
    ensures Meaning(Program(), ItemAt(k)) == Some(InstrAt(k))
  {
    hide WordOf, NumBytes, TargetItem, Program;
  }

  lemma MeaningBranches(k: nat)
    requires k in {10, 17, 20, 28, 34, 52}
    ensures Meaning(Program(), ItemAt(k)) == Some(InstrAt(k))
  {
    LabelAt_end();
    LabelAt_even();
    LabelAt_after();
    LabelAt_loop();
    LabelAt_finalize();
    LabelAt_inner();
    hide WordOf, NumBytes, TargetItem, Program;
  }

  /** An instruction with plain operands means what an engine parses from them. */
  lemma MeaningPlain(op: Op, operands: seq<Operand>, a: Bytes)
    requires !op.MOV_RI? && !IsBranch(op)
    requires NumBytes(operands) == Some(a) && |a| == OperandLen(op)
    ensures Meaning(Program(), Emit(op, operands)) == Some(Parse(op, a))
  {
    hide NumBytes, Program;
  }

  lemma NoBytes()
    ensures NumBytes([]) == Some([])
  {}

  lemma MeaningPlain0(k: nat)
    requires k in {9, 11, 12, 13}
    ensures Meaning(Program(), ItemAt(k)) == Some(InstrAt(k))
  {
    hide NumBytes, Program, Meaning;
    match k {
      case 9 =>
        Bytes2(Num(0), Num(1));
        MeaningPlain(CMP, [Num(0), Num(1)], [0, 1]);
      case 11 =>
        Bytes2(Num(7), Num(0));
        MeaningPlain(MOV_RR, [Num(7), Num(0)], [7, 0]);
      case 12 =>
        Bytes2(Num(2), Num(7));
        MeaningPlain(LOAD, [Num(2), Num(7)], [2, 7]);
      case _ =>
        Bytes3(Num(12), Num(12), Num(2));
        MeaningPlain(HASH_ROUND, [Num(12), Num(12), Num(2)], [12, 12, 2]);
    }
  }

  lemma MeaningPlain1(k: nat)
    requires k in {14, 15, 16, 18}
    ensures Meaning(Program(), ItemAt(k)) == Some(InstrAt(k))
  {
    hide NumBytes, Program, Meaning;
    match k {
      case 14 =>
        Bytes2(Num(13), Num(2));
        MeaningPlain(MIX, [Num(13), Num(2)], [13, 2]);
      case 15 =>
        Bytes3(Num(3), Num(2), Num(6));
        MeaningPlain(AND, [Num(3), Num(2), Num(6)], [3, 2, 6]);
      case 16 =>
        Bytes2(Num(3), Num(8));
        MeaningPlain(CMP, [Num(3), Num(8)], [3, 8]);
      case _ =>
        Bytes3(Num(15), Num(15), Num(2));
        MeaningPlain(HASH_ROUND, [Num(15), Num(15), Num(2)], [15, 15, 2]);
    }
  }

  lemma MeaningPlain2(k: nat)
    requires k in {19, 22, 23, 25}
    ensures Meaning(Program(), ItemAt(k)) == Some(InstrAt(k))
  {
    hide NumBytes, Program, Meaning;
    match k {
      case 19 =>
        Bytes3(Num(15), Num(15), Num(7));
        MeaningPlain(ROL, [Num(15), Num(15), Num(7)], [15, 15, 7]);
      case 22 =>
        Bytes3(Num(14), Num(14), Num(2));
        MeaningPlain(HASH_ROUND, [Num(14), Num(14), Num(2)], [14, 14, 2]);
      case 23 =>
        Bytes3(Num(14), Num(14), Num(11));
        MeaningPlain(ROR, [Num(14), Num(14), Num(11)], [14, 14, 11]);
      case _ =>
        Bytes3(Num(12), Num(12), Num(14));
        MeaningPlain(XOR, [Num(12), Num(12), Num(14)], [12, 12, 14]);
    }
  }

  lemma MeaningPlain3(k: nat)
    requires k in {26, 27, 30, 31}
    ensures Meaning(Program(), ItemAt(k)) == Some(InstrAt(k))
  {
    hide NumBytes, Program, Meaning;
    match k {
      case 26 =>
        Bytes3(Num(13), Num(13), Num(15));
        MeaningPlain(ADD, [Num(13), Num(13), Num(15)], [13, 13, 15]);
      case 27 =>
        Bytes3(Num(0), Num(0), Num(6));
        MeaningPlain(ADD, [Num(0), Num(0), Num(6)], [0, 0, 6]);
      case 30 =>
        Bytes3(Num(12), Num(12), Num(13));
        MeaningPlain(HASH_ROUND, [Num(12), Num(12), Num(13)], [12, 12, 13]);
      case _ =>
        Bytes3(Num(13), Num(13), Num(14));
        MeaningPlain(HASH_ROUND, [Num(13), Num(13), Num(14)], [13, 13, 14]);
    }
  }

  lemma MeaningPlain4(k: nat)
    requires k in {32, 33, 35, 37}
    ensures Meaning(Program(), ItemAt(k)) == Some(InstrAt(k))
  {
    hide NumBytes, Program, Meaning;
    match k {
      case 32 =>
        Bytes3(Num(14), Num(14), Num(15));
        MeaningPlain(HASH_ROUND, [Num(14), Num(14), Num(15)], [14, 14, 15]);
      case 33 =>
        Bytes3(Num(15), Num(15), Num(12));
        MeaningPlain(HASH_ROUND, [Num(15), Num(15), Num(12)], [15, 15, 12]);
      case 35 =>
        Bytes1(Num(0x42));
        MeaningPlain(HALT, [Num(0x42)], [0x42]);
      case _ =>
        NoBytes();
        MeaningPlain(NOP, [], []);
    }
  }

  lemma MeaningPlain5(k: nat)
    requires k in {38, 39, 40, 41}
    ensures Meaning(Program(), ItemAt(k)) == Some(InstrAt(k))
  {
    hide NumBytes, Program, Meaning;
    match k {
      case 38 =>
        Bytes2(Num(3), Num(12));
        MeaningPlain(NOT, [Num(3), Num(12)], [3, 12]);
      case 39 =>
        Bytes3(Num(4), Num(13), Num(3));
        MeaningPlain(OR, [Num(4), Num(13), Num(3)], [4, 13, 3]);
      case 40 =>
        Bytes3(Num(5), Num(14), Num(15));
        MeaningPlain(SUB, [Num(5), Num(14), Num(15)], [5, 14, 15]);
      case _ =>
        Bytes3(Num(9), Num(5), Num(6));
        MeaningPlain(MUL, [Num(9), Num(5), Num(6)], [9, 5, 6]);
    }
  }

  lemma MeaningPlain6(k: nat)
    requires k in {42, 43, 44, 47}
    ensures Meaning(Program(), ItemAt(k)) == Some(InstrAt(k))
  {
    hide NumBytes, Program, Meaning;
    match k {
      case 42 =>
        Bytes3(Num(10), Num(4), Num(3));
        MeaningPlain(SHL, [Num(10), Num(4), Num(3)], [10, 4, 3]);
      case 43 =>
        Bytes3(Num(11), Num(4), Num(5));
        MeaningPlain(SHR, [Num(11), Num(4), Num(5)], [11, 4, 5]);
      case 44 =>
        Bytes3(Num(4), Num(10), Num(11));
        MeaningPlain(XOR, [Num(4), Num(10), Num(11)], [4, 10, 11]);
      case _ =>
        Bytes3(Num(9), Num(9), Num(4));
        MeaningPlain(HASH_ROUND, [Num(9), Num(9), Num(4)], [9, 9, 4]);
    }
  }

  lemma MeaningPlain7(k: nat)
    requires k in {48, 49, 50, 51}
    ensures Meaning(Program(), ItemAt(k)) == Some(InstrAt(k))
  {
    hide NumBytes, Program, Meaning;
    match k {
      case 48 =>
        Bytes2(Num(9), Num(8));
        MeaningPlain(CMP, [Num(9), Num(8)], [9, 8]);
      case 49 =>
        Bytes3(Num(5), Num(9), Num(1));
        MeaningPlain(CMOV, [Num(5), Num(9), Num(1)], [5, 9, 1]);
      case 50 =>
        Bytes3(Num(0), Num(0), Num(6));
        MeaningPlain(SUB, [Num(0), Num(0), Num(6)], [0, 0, 6]);
      case _ =>
        Bytes2(Num(0), Num(8));
        MeaningPlain(CMP, [Num(0), Num(8)], [0, 8]);
    }
  }

  lemma MeaningPlain8(k: nat)
    requires k in {53, 54, 55, 56}
    ensures Meaning(Program(), ItemAt(k)) == Some(InstrAt(k))
  {
    hide NumBytes, Program, Meaning;
    match k {
      case 53 =>
        Bytes2(Num(7), Num(9));
        MeaningPlain(STORE, [Num(7), Num(9)], [7, 9]);
      case 54 =>
        Bytes3(Num(12), Num(12), Num(9));
        MeaningPlain(XOR, [Num(12), Num(12), Num(9)], [12, 12, 9]);
      case 55 =>
        Bytes3(Num(13), Num(13), Num(5));
        MeaningPlain(ADD, [Num(13), Num(13), Num(5)], [13, 13, 5]);
      case _ =>
        Bytes3(Num(14), Num(14), Num(4));
        MeaningPlain(XOR, [Num(14), Num(14), Num(4)], [14, 14, 4]);
    }
  }

  lemma MeaningPlain9(k: nat)
    requires k in {57, 58}
    ensures Meaning(Program(), ItemAt(k)) == Some(InstrAt(k))
  {
    hide NumBytes, Program, Meaning;
    match k {
      case 57 =>
        Bytes2(Num(15), Num(3));
        MeaningPlain(MIX, [Num(15), Num(3)], [15, 3]);
      case _ =>
        NoBytes();
        MeaningPlain(RET, [], []);
    }
  }

  /** The instruction of every item that is not a label. */
  lemma MeaningOf(k: nat)
    requires k < LENGTH && ItemAt(k).Emit?
    ensures Meaning(Program(), ItemAt(k)) == Some(InstrAt(k))
  {
    hide Meaning, Program, InstrAt;
    if k in {0, 1, 2, 3, 4, 5, 6, 7, 45} { MeaningMoves(k); }
    else if k in {10, 17, 20, 28, 34, 52} { MeaningBranches(k); }
    else if k in {9, 11, 12, 13} { MeaningPlain0(k); }
    else if k in {14, 15, 16, 18} { MeaningPlain1(k); }
    else if k in {19, 22, 23, 25} { MeaningPlain2(k); }
    else if k in {26, 27, 30, 31} { MeaningPlain3(k); }
    else if k in {32, 33, 35, 37} { MeaningPlain4(k); }
    else if k in {38, 39, 40, 41} { MeaningPlain5(k); }
    else if k in {42, 43, 44, 47} { MeaningPlain6(k); }
    else if k in {48, 49, 50, 51} { MeaningPlain7(k); }
    else if k in {53, 54, 55, 56} { MeaningPlain8(k); }
    else { MeaningPlain9(k); }
  }

  lemma {:induction false} OffsetBound(items: seq<Item>, k: nat)
    requires k <= |items|
    ensures Offset(items, k) <= 10 * k
  {
    if k > 0 { OffsetBound(items, k - 1); }
  }

  lemma ItemFits(k: nat)
    requires k < LENGTH && ItemAt(k).Emit?
    ensures Meaning(Program(), ItemAt(k)).Some?
    ensures IsBranch(ItemAt(k).op) ==>
              && ItemAt(k).operands != []
              && TargetItem(Program(), ItemAt(k).operands[0]).Some?
              && Offset(Program(), TargetItem(Program(), ItemAt(k).operands[0]).value) < 0x1_0000
  {
    MeaningOf(k);
    hide ItemAt, InstrAt, Meaning, TargetItem;
    if IsBranch(ItemAt(k).op) {
      BranchHasTarget(Program(), ItemAt(k));
      OffsetBound(Program(), TargetItem(Program(), ItemAt(k).operands[0]).value);
    }
  }

  lemma ProgramWellFormed()
    ensures WellFormed(Program())
  {
    hide ItemAt, Meaning, TargetItem, Offset;
    forall k | 0 <= k < LENGTH && ItemAt(k).Emit? {
      ItemFits(k);
    }
  }

  lemma BranchHasTarget(items: seq<Item>, it: Item)
    requires it.Emit? && IsBranch(it.op) && Meaning(items, it).Some?
    ensures it.operands != [] && TargetItem(items, it.operands[0]).Some?
  {}
}
