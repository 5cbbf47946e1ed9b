/** What the canonical program computes, and the constants its run depends on. */
module CanonicalSpec {
  import opened Words
  import opened Isa
  import opened Assembler
  import opened LabelMachine
  import opened CanonicalProgram

  // ---- the function the program computes --------------------------------------------------------------------

  /** The four accumulators R12..R15 and the path. */
  datatype Acc = Acc(r12: Cell, r13: Cell, r14: Cell, r15: Cell, path: Path)

  const ONE := Cell(1)

  function Start(): Acc {
    Acc(Cell(0x0123_4567_89AB_CDEF), Cell(0xDEAD_BEEF_CAFE_BABE), Cell(0xA5A5_A5A5_5A5A_5A5A),
        Cell(0xF0E1_D2C3_B4A5_9687),
        Path(0x811C_9DC5))
  }

  predicate Even(w: Cell) { AluOp(AND, w, ONE) == ZERO }

  /** One memory word: 86 and 109 are the addresses behind the two branches of the loop. */
  function Absorb(a: Acc, w: Cell): Acc {
    var r15 := if Even(w) then a.r15 else ShiftOp(ROL, HashCells(a.r15, w), 7);
    var r14 := if Even(w) then ShiftOp(ROR, HashCells(a.r14, w), 11) else a.r14;
    Acc(AluOp(XOR, HashCells(a.r12, w), r14), AluOp(ADD, MixCells(a.r13, w, 13), r15), r14, r15,
        FoldPath(FoldPath(a.path, 86, false), 109, Even(w)))
  }

  function Folded(mem: seq<Cell>, k: nat): Acc
    requires k <= |mem|
  { if k == 0 then Start() else Absorb(Folded(mem, k - 1), mem[k - 1]) }

  function Avalanche(a: Acc): Acc {
    var r12 := HashCells(a.r12, a.r13);
    var r13 := HashCells(a.r13, a.r14);
    var r14 := HashCells(a.r14, a.r15);
    Acc(r12, r13, r14, HashCells(a.r15, r12), FoldPath(a.path, 86, true))
  }

  /** The subroutine's scratch registers: R9 is hashed with R4, R5 keeps its last nonzero value. */
  datatype Scratch = Scratch(r4: Cell, r5: Cell, r9: Cell, path: Path)

  function Joined(a: Acc): Cell { AluOp(OR, a.r13, Complement(a.r12)) }

  function Prepare(a: Acc): Scratch {
    var r4 := Joined(a);
    var r5 := AluOp(SUB, a.r14, a.r15);
    Scratch(AluOp(XOR, ShiftOp(SHL, r4, 3), ShiftOp(SHR, r4, 5)), r5, AluOp(MUL, r5, ONE), a.path)
  }

  function Round(s: Scratch, again: bool): Scratch {
    var r9 := HashCells(s.r9, s.r4);
    Scratch(s.r4, if r9 == ZERO then s.r5 else r9, r9, FoldPath(s.path, 223, again))
  }

  function Rounds(a: Acc): Scratch { Round(Round(Round(Prepare(a), true), true), false) }

  function Finalized(a: Acc): Acc {
    var s := Rounds(a);
    Acc(AluOp(XOR, a.r12, s.r9), AluOp(ADD, a.r13, s.r5), AluOp(XOR, a.r14, s.r4),
        MixCells(a.r15, Complement(a.r12), 15), s.path)
  }

  /** The accumulators when the program halts. */
  function Output(mem: seq<Cell>): Acc
    requires |mem| == VM_MEM_WORDS
  { Finalized(Avalanche(Folded(mem, 22))) }

  /** The word stored into MEM[21]. */
  function StoredWord(mem: seq<Cell>): Cell
    requires |mem| == VM_MEM_WORDS
  { Rounds(Avalanche(Folded(mem, 22))).r9 }

  function OddWords(mem: seq<Cell>, k: nat): nat
    requires k <= |mem|
  { if k == 0 then 0 else OddWords(mem, k - 1) + (if Even(mem[k - 1]) then 0 else 1) }

  // ---- the small numbers the program counts with ------------------------------------------------------------

  function Idx(k: nat): Cell
    requires k <= 22
  {
    match k
    case 0 => Cell(0)
    case 1 => Cell(1)
    case 2 => Cell(2)
    case 3 => Cell(3)
    case 4 => Cell(4)
    case 5 => Cell(5)
    case 6 => Cell(6)
    case 7 => Cell(7)
    case 8 => Cell(8)
    case 9 => Cell(9)
    case 10 => Cell(10)
    case 11 => Cell(11)
    case 12 => Cell(12)
    case 13 => Cell(13)
    case 14 => Cell(14)
    case 15 => Cell(15)
    case 16 => Cell(16)
    case 17 => Cell(17)
    case 18 => Cell(18)
    case 19 => Cell(19)
    case 20 => Cell(20)
    case 21 => Cell(21)
    case _ => Cell(22)
  }

  lemma Counting0(k: nat)
    requires 0 <= k <= 5
    ensures MemIndex(Idx(k)) == k
    ensures k < 22 ==> Idx(k) != Idx(22)
    ensures k < 22 ==> AluOp(ADD, Idx(k), ONE) == Idx(k + 1)
  {
    assert Idx(22) == Cell(22);
    assert Idx(0) == Cell(0) && WordIndex(0) == 0 && AluWord(ADD, 0, 1) == 1;
    assert Idx(1) == Cell(1) && WordIndex(1) == 1 && AluWord(ADD, 1, 1) == 2;
    assert Idx(2) == Cell(2) && WordIndex(2) == 2 && AluWord(ADD, 2, 1) == 3;
    assert Idx(3) == Cell(3) && WordIndex(3) == 3 && AluWord(ADD, 3, 1) == 4;
    assert Idx(4) == Cell(4) && WordIndex(4) == 4 && AluWord(ADD, 4, 1) == 5;
    assert Idx(5) == Cell(5) && WordIndex(5) == 5 && AluWord(ADD, 5, 1) == 6;
    assert Idx(6) == Cell(6);
    hide Idx, WordIndex, AluWord;
  }

  lemma Counting6(k: nat)
    requires 6 <= k <= 11
    ensures MemIndex(Idx(k)) == k
    ensures k < 22 ==> Idx(k) != Idx(22)
    ensures k < 22 ==> AluOp(ADD, Idx(k), ONE) == Idx(k + 1)
  {
    assert Idx(22) == Cell(22);
    assert Idx(6) == Cell(6) && WordIndex(6) == 6 && AluWord(ADD, 6, 1) == 7;
    assert Idx(7) == Cell(7) && WordIndex(7) == 7 && AluWord(ADD, 7, 1) == 8;
    assert Idx(8) == Cell(8) && WordIndex(8) == 8 && AluWord(ADD, 8, 1) == 9;
    assert Idx(9) == Cell(9) && WordIndex(9) == 9 && AluWord(ADD, 9, 1) == 10;
    assert Idx(10) == Cell(10) && WordIndex(10) == 10 && AluWord(ADD, 10, 1) == 11;
    assert Idx(11) == Cell(11) && WordIndex(11) == 11 && AluWord(ADD, 11, 1) == 12;
    assert Idx(12) == Cell(12);
    hide Idx, WordIndex, AluWord;
  }

  lemma Counting12(k: nat)
    requires 12 <= k <= 17
    ensures MemIndex(Idx(k)) == k
    ensures k < 22 ==> Idx(k) != Idx(22)
    ensures k < 22 ==> AluOp(ADD, Idx(k), ONE) == Idx(k + 1)
  {
    assert Idx(22) == Cell(22);
    assert Idx(12) == Cell(12) && WordIndex(12) == 12 && AluWord(ADD, 12, 1) == 13;
    assert Idx(13) == Cell(13) && WordIndex(13) == 13 && AluWord(ADD, 13, 1) == 14;
    assert Idx(14) == Cell(14) && WordIndex(14) == 14 && AluWord(ADD, 14, 1) == 15;
    assert Idx(15) == Cell(15) && WordIndex(15) == 15 && AluWord(ADD, 15, 1) == 16;
    assert Idx(16) == Cell(16) && WordIndex(16) == 16 && AluWord(ADD, 16, 1) == 17;
    assert Idx(17) == Cell(17) && WordIndex(17) == 17 && AluWord(ADD, 17, 1) == 18;
    assert Idx(18) == Cell(18);
    hide Idx, WordIndex, AluWord;
  }

  lemma Counting18(k: nat)
    requires 18 <= k <= 22
    ensures MemIndex(Idx(k)) == k
    ensures k < 22 ==> Idx(k) != Idx(22)
    ensures k < 22 ==> AluOp(ADD, Idx(k), ONE) == Idx(k + 1)
  {
    assert Idx(22) == Cell(22);
    assert Idx(18) == Cell(18) && WordIndex(18) == 18 && AluWord(ADD, 18, 1) == 19;
    assert Idx(19) == Cell(19) && WordIndex(19) == 19 && AluWord(ADD, 19, 1) == 20;
    assert Idx(20) == Cell(20) && WordIndex(20) == 20 && AluWord(ADD, 20, 1) == 21;
    assert Idx(21) == Cell(21) && WordIndex(21) == 21 && AluWord(ADD, 21, 1) == 22;
    assert Idx(22) == Cell(22) && WordIndex(22) == 22;
    hide Idx, WordIndex, AluWord;
  }

  lemma Counting(k: nat)
    requires k <= 22
    ensures MemIndex(Idx(k)) == k
    ensures Idx(k) == Idx(22) <==> k == 22
    ensures k < 22 ==> AluOp(ADD, Idx(k), ONE) == Idx(k + 1)
  {
    hide MemIndex, Idx, AluOp;
    if k < 6 { Counting0(k); } else if k < 12 { Counting6(k); } else if k < 18 { Counting12(k); }
    else { Counting18(k); }
  }

  lemma SmallCells()
    ensures Idx(0) == Cell(0) && Idx(1) == Cell(1) && Idx(2) == Cell(2) && Idx(3) == Cell(3)
  {}

  lemma SmallDifferences()
    ensures AluWord(SUB, 3, 1) == 2 && AluWord(SUB, 2, 1) == 1 && AluWord(SUB, 1, 1) == 0
  {}

  lemma CountingDown()
    ensures AluOp(SUB, Idx(3), ONE) == Idx(2) && AluOp(SUB, Idx(2), ONE) == Idx(1) && AluOp(SUB, Idx(1), ONE) == Idx(0)
    ensures Idx(2) != ZERO && Idx(1) != ZERO && Idx(0) == ZERO && Idx(1) == ONE
  {
    hide Idx, AluWord;
    SmallCells();
    SmallDifferences();
  }

  lemma CmpZero(a: Cell, b: Cell)
    ensures CmpFlags(a, b).zf <==> a == b
    ensures CmpFlags(a, a) == Flags(true, false, false)
  {
    assert !NegativeDifference(a.w, a.w) && !Below(a.w, a.w);
    hide NegativeDifference, Below;
  }

  lemma WordSteps(n: nat, w: Word)
    requires n > 0 && WordOf(n / 256) == w
    ensures WordOf(n) == AppendByte(w, n % 256)
  {
    hide AppendByte;
  }

  lemma SmallImmediates()
    ensures Cell(WordOf(0)) == Idx(0) && Cell(WordOf(1)) == ONE && Cell(WordOf(22)) == Idx(22)
        && Cell(WordOf(3)) == Idx(3)
  {
    assert AppendByte(0, 1) == 1 && AppendByte(0, 22) == 22 && AppendByte(0, 3) == 3;
    hide AppendByte;
    WordSteps(1, 0);
    WordSteps(22, 0);
    WordSteps(3, 0);
  }

  lemma Immediate12()
    ensures WordOf(0x0123_4567_89AB_CDEF) == 0x0123_4567_89AB_CDEF
  {
    assert AppendByte(0x0, 0x1) == 0x1;
    assert AppendByte(0x1, 0x23) == 0x123;
    assert AppendByte(0x123, 0x45) == 0x12345;
    assert AppendByte(0x12345, 0x67) == 0x1234567;
    assert AppendByte(0x1234567, 0x89) == 0x123456789;
    assert AppendByte(0x123456789, 0xab) == 0x123456789ab;
    assert AppendByte(0x123456789ab, 0xcd) == 0x123456789abcd;
    assert AppendByte(0x123456789abcd, 0xef) == 0x123456789abcdef;
    hide AppendByte;
    WordSteps(0x1, 0x0);
    WordSteps(0x123, 0x1);
    WordSteps(0x12345, 0x123);
    WordSteps(0x1234567, 0x12345);
    WordSteps(0x123456789, 0x1234567);
    WordSteps(0x123456789ab, 0x123456789);
    WordSteps(0x123456789abcd, 0x123456789ab);
    WordSteps(0x123456789abcdef, 0x123456789abcd);
  }

  lemma Immediate13()
    ensures WordOf(0xDEAD_BEEF_CAFE_BABE) == 0xDEAD_BEEF_CAFE_BABE
  {
    assert AppendByte(0x0, 0xde) == 0xde;
    assert AppendByte(0xde, 0xad) == 0xdead;
    assert AppendByte(0xdead, 0xbe) == 0xdeadbe;
    assert AppendByte(0xdeadbe, 0xef) == 0xdeadbeef;
    assert AppendByte(0xdeadbeef, 0xca) == 0xdeadbeefca;
    assert AppendByte(0xdeadbeefca, 0xfe) == 0xdeadbeefcafe;
    assert AppendByte(0xdeadbeefcafe, 0xba) == 0xdeadbeefcafeba;
    assert AppendByte(0xdeadbeefcafeba, 0xbe) == 0xdeadbeefcafebabe;
    hide AppendByte;
    WordSteps(0xde, 0x0);
    WordSteps(0xdead, 0xde);
    WordSteps(0xdeadbe, 0xdead);
    WordSteps(0xdeadbeef, 0xdeadbe);
    WordSteps(0xdeadbeefca, 0xdeadbeef);
    WordSteps(0xdeadbeefcafe, 0xdeadbeefca);
    WordSteps(0xdeadbeefcafeba, 0xdeadbeefcafe);
    WordSteps(0xdeadbeefcafebabe, 0xdeadbeefcafeba);
  }

  lemma Immediate14()
    ensures WordOf(0xA5A5_A5A5_5A5A_5A5A) == 0xA5A5_A5A5_5A5A_5A5A
  {
    assert AppendByte(0x0, 0xa5) == 0xa5;
    assert AppendByte(0xa5, 0xa5) == 0xa5a5;
    assert AppendByte(0xa5a5, 0xa5) == 0xa5a5a5;
    assert AppendByte(0xa5a5a5, 0xa5) == 0xa5a5a5a5;
    assert AppendByte(0xa5a5a5a5, 0x5a) == 0xa5a5a5a55a;
    assert AppendByte(0xa5a5a5a55a, 0x5a) == 0xa5a5a5a55a5a;
    assert AppendByte(0xa5a5a5a55a5a, 0x5a) == 0xa5a5a5a55a5a5a;
    assert AppendByte(0xa5a5a5a55a5a5a, 0x5a) == 0xa5a5a5a55a5a5a5a;
    hide AppendByte;
    WordSteps(0xa5, 0x0);
    WordSteps(0xa5a5, 0xa5);
    WordSteps(0xa5a5a5, 0xa5a5);
    WordSteps(0xa5a5a5a5, 0xa5a5a5);
    WordSteps(0xa5a5a5a55a, 0xa5a5a5a5);
    WordSteps(0xa5a5a5a55a5a, 0xa5a5a5a55a);
    WordSteps(0xa5a5a5a55a5a5a, 0xa5a5a5a55a5a);
    WordSteps(0xa5a5a5a55a5a5a5a, 0xa5a5a5a55a5a5a);
  }

  lemma Immediate15()
    ensures WordOf(0xF0E1_D2C3_B4A5_9687) == 0xF0E1_D2C3_B4A5_9687
  {
    assert AppendByte(0x0, 0xf0) == 0xf0;
    assert AppendByte(0xf0, 0xe1) == 0xf0e1;
    assert AppendByte(0xf0e1, 0xd2) == 0xf0e1d2;
    assert AppendByte(0xf0e1d2, 0xc3) == 0xf0e1d2c3;
    assert AppendByte(0xf0e1d2c3, 0xb4) == 0xf0e1d2c3b4;
    assert AppendByte(0xf0e1d2c3b4, 0xa5) == 0xf0e1d2c3b4a5;
    assert AppendByte(0xf0e1d2c3b4a5, 0x96) == 0xf0e1d2c3b4a596;
    assert AppendByte(0xf0e1d2c3b4a596, 0x87) == 0xf0e1d2c3b4a59687;
    hide AppendByte;
    WordSteps(0xf0, 0x0);
    WordSteps(0xf0e1, 0xf0);
    WordSteps(0xf0e1d2, 0xf0e1);
    WordSteps(0xf0e1d2c3, 0xf0e1d2);
    WordSteps(0xf0e1d2c3b4, 0xf0e1d2c3);
    WordSteps(0xf0e1d2c3b4a5, 0xf0e1d2c3b4);
    WordSteps(0xf0e1d2c3b4a596, 0xf0e1d2c3b4a5);
    WordSteps(0xf0e1d2c3b4a59687, 0xf0e1d2c3b4a596);
  }

  // ---- byte offsets of the items ----------------------------------------------------------------------------

  function SizeAt(k: nat): nat {
    if k < 8 || k == 45 then 10
    else if k == 8 || k == 21 || k == 24 || k == 29 || k == 36 || k == 46 then 0
    else if k == 37 || k == 58 then 1
    else if k == 35 then 2
    else if 9 <= k <= 12 || k == 14 || k == 16 || k == 17 || k == 20 || k == 28 then 3
    else if k == 34 || k == 38 || k == 48 || 51 <= k <= 53 || k == 57 then 3
    else 4
  }

  lemma SizeBelow20(k: nat)
    requires k < 20
    ensures Size(ItemAt(k)) == SizeAt(k)
  {}

  lemma SizeBelow40(k: nat)
    requires 20 <= k < 40
    ensures Size(ItemAt(k)) == SizeAt(k)
  {}

  lemma SizeAbove(k: nat)
    requires 40 <= k < LENGTH
    ensures Size(ItemAt(k)) == SizeAt(k)
  {}

  lemma SizeIs(k: nat)
    requires k < LENGTH
    ensures Size(ItemAt(k)) == SizeAt(k)
  {
    hide ItemAt, SizeAt, Size;
    if k < 20 { SizeBelow20(k); } else if k < 40 { SizeBelow40(k); } else { SizeAbove(k); }
  }

  lemma OffsetNext(k: nat)
    requires k < LENGTH
    ensures Offset(Program(), k + 1) == Offset(Program(), k) + SizeAt(k)
  {
    hide ItemAt, SizeAt, Size;
    SizeIs(k);
  }

  lemma Offsets0()
    ensures Offset(Program(), 8) == 80
  {
    assert Offset(Program(), 0) == 0;
    hide Offset, Program;
    OffsetNext(0); OffsetNext(1); OffsetNext(2); OffsetNext(3); OffsetNext(4); OffsetNext(5); OffsetNext(6);
    OffsetNext(7);
  }

  lemma Offsets8()
    ensures Offset(Program(), 11) == 86
    ensures Offset(Program(), 18) == 109
  {
    Offsets0();
    hide Offset, Program;
    OffsetNext(8); OffsetNext(9); OffsetNext(10); OffsetNext(11); OffsetNext(12); OffsetNext(13); OffsetNext(14);
    OffsetNext(15); OffsetNext(16); OffsetNext(17);
  }

  lemma Offsets18()
    ensures Offset(Program(), 21) == 120
    ensures Offset(Program(), 24) == 128
    ensures Offset(Program(), 29) == 143
  {
    Offsets8();
    hide Offset, Program;
    OffsetNext(18); OffsetNext(19); OffsetNext(20); OffsetNext(21); OffsetNext(22); OffsetNext(23); OffsetNext(24);
    OffsetNext(25); OffsetNext(26); OffsetNext(27); OffsetNext(28);
  }

  lemma Offsets29()
    ensures Offset(Program(), 35) == 162
    ensures Offset(Program(), 36) == 164
  {
    Offsets18();
    hide Offset, Program;
    OffsetNext(29); OffsetNext(30); OffsetNext(31); OffsetNext(32); OffsetNext(33); OffsetNext(34); OffsetNext(35);
  }

  lemma Offsets36()
    ensures Offset(Program(), 46) == 202
  {
    Offsets29();
    hide Offset, Program;
    OffsetNext(36); OffsetNext(37); OffsetNext(38); OffsetNext(39); OffsetNext(40); OffsetNext(41); OffsetNext(42);
    OffsetNext(43); OffsetNext(44); OffsetNext(45);
  }

  lemma Offsets46()
    ensures Offset(Program(), 53) == 223
    ensures Offset(Program(), 59) == 242
  {
    Offsets36();
    hide Offset, Program;
    OffsetNext(46); OffsetNext(47); OffsetNext(48); OffsetNext(49); OffsetNext(50); OffsetNext(51); OffsetNext(52);
    OffsetNext(53); OffsetNext(54); OffsetNext(55); OffsetNext(56); OffsetNext(57); OffsetNext(58);
  }
}
