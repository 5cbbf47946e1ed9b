/** What the opcodes compute: laws that fix each operation by itself, whatever the way it is computed. */
module OpcodeLaws {
  import opened ByteStrings
  import opened Words
  import opened Isa

  const ONES: Word := 0xFFFF_FFFF_FFFF_FFFF
  const TOP: Word := 0x8000_0000_0000_0000

  // ---- bit by bit -----------------------------------------------------------------------------------------------

  predicate IsBitwise(o: Op) { o.XOR? || o.AND? || o.OR? }

  lemma MaskedXor(a: Word, b: Word, m: Word)
    ensures Both(Xor(a, b), m) == Xor(Both(a, m), Both(b, m))
  {
    assert Both(a ^ b, m) == Xor(a & m, b & m);
  }

  lemma MaskedBoth(a: Word, b: Word, m: Word)
    ensures Both(Both(a, b), m) == Both(Both(a, m), Both(b, m))
  {
    assert Both(a & b, m) == Both(a & m, b & m);
  }

  lemma MaskedEither(a: Word, b: Word, m: Word)
    ensures Both(Either(a, b), m) == Either(Both(a, m), Both(b, m))
  {
    assert Both(a | b, m) == Either(a & m, b & m);
  }

  /** XOR, AND and OR work on each set of bits alone; with the tables below this fixes them. */
  lemma BitsAreIndependent(o: Op, a: Cell, b: Cell, m: Cell)
    requires IsBitwise(o)
    ensures AluOp(AND, AluOp(o, a, b), m) == AluOp(o, AluOp(AND, a, m), AluOp(AND, b, m))
  {
    hide Xor, Both, Either;
    if o.XOR? { MaskedXor(a.w, b.w, m.w); }
    else if o.AND? { MaskedBoth(a.w, b.w, m.w); }
    else { MaskedEither(a.w, b.w, m.w); }
  }

  lemma BothIs(a: Word, b: Word)
    ensures Both(a, b) == a & b
  {}

  /** AND with a mask keeps the bits of the mask. */
  lemma AndIsMask(a: Cell, m: Cell)
    ensures AluOp(AND, a, m) == Cell(a.w & m.w)
  {
    hide Both;
    BothIs(a.w, m.w);
  }

  lemma TruthTables()
    ensures AluOp(XOR, ZERO, ZERO) == AluOp(XOR, Cell(ONES), Cell(ONES)) == ZERO
    ensures AluOp(XOR, ZERO, Cell(ONES)) == AluOp(XOR, Cell(ONES), ZERO) == Cell(ONES)
    ensures AluOp(AND, ZERO, ZERO) == AluOp(AND, ZERO, Cell(ONES)) == AluOp(AND, Cell(ONES), ZERO) == ZERO
    ensures AluOp(AND, Cell(ONES), Cell(ONES)) == Cell(ONES)
    ensures AluOp(OR, ZERO, Cell(ONES)) == AluOp(OR, Cell(ONES), ZERO) == Cell(ONES)
    ensures AluOp(OR, Cell(ONES), Cell(ONES)) == Cell(ONES)
    ensures AluOp(OR, ZERO, ZERO) == ZERO
  {
    assert Xor(0, 0) == 0 && Xor(ONES, ONES) == 0 && Xor(0, ONES) == ONES && Xor(ONES, 0) == ONES;
    assert Both(0, 0) == 0 && Both(0, ONES) == 0 && Both(ONES, 0) == 0 && Both(ONES, ONES) == ONES;
    assert Either(0, 0) == 0 && Either(0, ONES) == ONES && Either(ONES, 0) == ONES && Either(ONES, ONES) == ONES;
    hide Xor, Both, Either;
  }

  lemma XorTwiceWords(a: Word, b: Word)
    ensures Xor(Xor(a, b), b) == a
  {
    assert Xor(a ^ b, b) == a;
  }

  lemma XorTwice(a: Cell, b: Cell)
    ensures AluOp(XOR, AluOp(XOR, a, b), b) == a
  {
    hide Xor;
    XorTwiceWords(a.w, b.w);
  }

  lemma FlipWords(a: Word)
    ensures Xor(a, Flip(a)) == ONES
  {
    assert Xor(a, !a) == ONES;
  }

  /** NOT flips every bit. */
  lemma ComplementFlips(a: Cell)
    ensures AluOp(XOR, a, Complement(a)) == Cell(ONES)
  {
    hide Xor, Flip;
    FlipWords(a.w);
  }

  lemma DeMorganWords(a: Word, b: Word)
    ensures Flip(Either(a, b)) == Both(Flip(a), Flip(b))
  {
    assert Flip(a | b) == Both(!a, !b);
  }

  lemma AbsorbOr(a: Word, b: Word)
    ensures Either(a, Both(a, b)) == a
  {
    assert Either(a, a & b) == a;
  }

  lemma AbsorbAnd(a: Word, b: Word)
    ensures Both(a, Either(a, b)) == a
  {
    assert Both(a, a | b) == a;
  }

  /** De Morgan and absorption. */
  lemma LatticeLaws(a: Cell, b: Cell)
    ensures Complement(AluOp(OR, a, b)) == AluOp(AND, Complement(a), Complement(b))
    ensures AluOp(OR, a, AluOp(AND, a, b)) == a && AluOp(AND, a, AluOp(OR, a, b)) == a
  {
    hide Both, Either, Flip;
    DeMorganWords(a.w, b.w);
    AbsorbOr(a.w, b.w);
    AbsorbAnd(a.w, b.w);
  }

  // ---- sums and products ----------------------------------------------------------------------------------------

  lemma SumWords(a: Word, b: Word)
    ensures Plus(a, 0) == a && Plus(a, Plus(b, 1)) == Plus(Plus(a, b), 1)
  {
    assert Plus(a, b + 1) == Plus(a + b, 1);
  }

  lemma NextWord(a: Word)
    ensures Plus(a, 1) == a + 1
  {}

  lemma DifferenceWords(a: Word, b: Word)
    ensures Minus(Plus(a, b), b) == a && Plus(Minus(a, b), b) == a
  {
    assert Minus(a + b, b) == a;
    assert Plus(a - b, b) == a;
  }

  /** ADD counts up from its first operand, and SUB undoes it. */
  lemma SumLaws(a: Cell, b: Cell)
    ensures AluOp(ADD, a, ZERO) == a
    ensures AluOp(ADD, a, AluOp(ADD, b, Cell(1))) == AluOp(ADD, AluOp(ADD, a, b), Cell(1))
    ensures AluOp(SUB, AluOp(ADD, a, b), b) == a && AluOp(ADD, AluOp(SUB, a, b), b) == a
  {
    hide Plus, Minus;
    SumWords(a.w, b.w);
    DifferenceWords(a.w, b.w);
  }

  lemma ProductWords(a: Word, b: Word)
    ensures Times(a, 0) == 0 && Times(a, Plus(b, 1)) == Plus(Times(a, b), a)
  {
    assert Times(a, b + 1) == Plus(a * b, a);
  }

  /** MUL adds its first operand as often as the second one says. */
  lemma ProductLaws(a: Cell, b: Cell)
    ensures AluOp(MUL, a, ZERO) == ZERO
    ensures AluOp(MUL, a, AluOp(ADD, b, Cell(1))) == AluOp(ADD, AluOp(MUL, a, b), a)
  {
    hide Plus, Times;
    ProductWords(a.w, b.w);
  }

  // ---- shifts and rotations -------------------------------------------------------------------------------------

  lemma ByOne(x: Word, n: nat)
    ensures RotlBy(x, 0) == RotrBy(x, 0) == ShlBy(x, 0) == ShrBy(x, 0) == x
    ensures RotlBy(x, 1) == RotlOne(x) && RotrBy(x, 1) == RotrOne(x)
    ensures ShlBy(x, 1) == ShlOne(x) && ShrBy(x, 1) == ShrOne(x)
    ensures RotrBy(x, n + 1) == RotrOne(RotrBy(x, n))
    ensures ShlBy(x, n + 1) == ShlOne(ShlBy(x, n)) && ShrBy(x, n + 1) == ShrOne(ShrBy(x, n))
  {
    hide RotlOne, RotrOne, ShlOne, ShrOne;
  }

  // Each shift as steps of one bit.

  lemma RolIs(a: Cell, n: nat)
    requires n < 64
    ensures ShiftOp(ROL, a, n) == Cell(RotlBy(a.w, n))
  {
    hide RotlBy, RotrBy, ShlBy, ShrBy;
  }

  lemma RorIs(a: Cell, n: nat)
    requires n < 64
    ensures ShiftOp(ROR, a, n) == Cell(RotrBy(a.w, n))
  {
    hide RotlBy, RotrBy, ShlBy, ShrBy;
  }

  lemma ShlIs(a: Cell, n: nat)
    requires n < 64
    ensures ShiftOp(SHL, a, n) == Cell(ShlBy(a.w, n))
  {
    hide RotlBy, RotrBy, ShlBy, ShrBy;
  }

  lemma ShrIs(a: Cell, n: nat)
    requires n < 64
    ensures ShiftOp(SHR, a, n) == Cell(ShrBy(a.w, n))
  {
    hide RotlBy, RotrBy, ShlBy, ShrBy;
  }

  lemma ShiftIs(a: Cell, n: nat)
    requires n < 64
    ensures ShiftOp(ROL, a, n) == Cell(RotlBy(a.w, n)) && ShiftOp(ROR, a, n) == Cell(RotrBy(a.w, n))
    ensures ShiftOp(SHL, a, n) == Cell(ShlBy(a.w, n)) && ShiftOp(SHR, a, n) == Cell(ShrBy(a.w, n))
  {
    hide ShiftOp, RotlBy, RotrBy, ShlBy, ShrBy;
    RolIs(a, n);
    RorIs(a, n);
    ShlIs(a, n);
    ShrIs(a, n);
  }

  lemma RolByOne(a: Cell, n: nat)
    requires n < 63
    ensures ShiftOp(ROL, a, n + 1) == ShiftOp(ROL, ShiftOp(ROL, a, n), 1)
  {
    hide ShiftOp, RotlBy, RotrBy, ShlBy, ShrBy, ShlOne, ShrOne, RotlOne, RotrOne;
    RotlLast(a.w, n);
    ByOne(RotlBy(a.w, n), 0);
    ShiftIs(a, n);
    ShiftIs(a, n + 1);
    ShiftIs(Cell(RotlBy(a.w, n)), 1);
  }

  lemma RorByOne(a: Cell, n: nat)
    requires n < 63
    ensures ShiftOp(ROR, a, n + 1) == ShiftOp(ROR, ShiftOp(ROR, a, n), 1)
  {
    hide ShiftOp, RotlBy, RotrBy, ShlBy, ShrBy, ShlOne, ShrOne, RotlOne, RotrOne;
    ByOne(a.w, n);
    ByOne(RotrBy(a.w, n), 0);
    ShiftIs(a, n);
    ShiftIs(a, n + 1);
    ShiftIs(Cell(RotrBy(a.w, n)), 1);
  }

  lemma ShlByOne(a: Cell, n: nat)
    requires n < 63
    ensures ShiftOp(SHL, a, n + 1) == ShiftOp(SHL, ShiftOp(SHL, a, n), 1)
  {
    hide ShiftOp, RotlBy, RotrBy, ShlBy, ShrBy, ShlOne, ShrOne, RotlOne, RotrOne;
    ByOne(a.w, n);
    ByOne(ShlBy(a.w, n), 0);
    ShiftIs(a, n);
    ShiftIs(a, n + 1);
    ShiftIs(Cell(ShlBy(a.w, n)), 1);
  }

  lemma ShrByOne(a: Cell, n: nat)
    requires n < 63
    ensures ShiftOp(SHR, a, n + 1) == ShiftOp(SHR, ShiftOp(SHR, a, n), 1)
  {
    hide ShiftOp, RotlBy, RotrBy, ShlBy, ShrBy, ShlOne, ShrOne, RotlOne, RotrOne;
    ByOne(a.w, n);
    ByOne(ShrBy(a.w, n), 0);
    ShiftIs(a, n);
    ShiftIs(a, n + 1);
    ShiftIs(Cell(ShrBy(a.w, n)), 1);
  }

  /** A shift by n + 1 is one by n and one by 1. */
  lemma OneAtATime(o: Op, a: Cell, n: nat)
    requires IsShift(o) && n < 63
    ensures ShiftOp(o, a, n + 1) == ShiftOp(o, ShiftOp(o, a, n), 1)
  {
    hide ShiftOp;
    match o {
      case ROL => RolByOne(a, n);
      case ROR => RorByOne(a, n);
      case SHL => ShlByOne(a, n);
      case SHR => ShrByOne(a, n);
    }
  }

  /** A shift by 0 does nothing, and the amount counts modulo 64. */
  lemma AmountIsModulo64(o: Op, a: Cell, n: nat)
    requires IsShift(o) && n < 64
    ensures ShiftOp(o, a, 0) == a && ShiftOp(o, a, n + 64) == ShiftOp(o, a, n)
  {
    hide ShiftOp, RotlBy, RotrBy, ShlBy, ShrBy;
    ModuloWidth(o, a, n);
    ShiftIs(a, 0);
    ByOne(a.w, 0);
  }

  lemma ModuloWidth(o: Op, a: Cell, n: nat)
    requires n < 64
    ensures ShiftOp(o, a, n + 64) == ShiftOp(o, a, n)
  {
    hide ShiftWord;
  }

  lemma DoubleWords(a: Word)
    ensures ShlOne(a) == Plus(a, a)
  {}

  lemma HalveWords(a: Word)
    ensures Either(ShlOne(ShrOne(a)), Both(a, 1)) == a
  {
    assert Either(ShlOne(a >> 1), a & 1) == a;
    assert ShlOne(ShrOne(a)) == ShlOne(a >> 1);
  }

  lemma HalfIsSmall(a: Word)
    ensures Both(ShrOne(a), TOP) == 0
  {
    assert Both(a >> 1, TOP) == 0;
  }

  lemma TurnWords(a: Word)
    ensures ShrOne(RotlOne(a)) == Both(a, 0x7FFF_FFFF_FFFF_FFFF)
  {
    assert ShrOne((a << 1) | (a >> 63)) == Both(a, 0x7FFF_FFFF_FFFF_FFFF);
  }

  lemma TurnedBit(a: Word)
    ensures Both(RotlOne(a), 1) == 1 <==> Both(a, TOP) == TOP
  {
    assert Both((a << 1) | (a >> 63), 1) == 1 <==> a & TOP == TOP;
  }

  /** SHL by one doubles. */
  lemma ShlDoubles(a: Cell)
    ensures ShiftOp(SHL, a, 1) == AluOp(ADD, a, a)
  {
    hide ShlBy, ShrBy, ShlOne, ShrOne, Plus;
    ByOne(a.w, 0);
    DoubleWords(a.w);
  }

  /** SHR by one drops the lowest bit ... */
  lemma ShrHalves(a: Cell)
    ensures AluOp(OR, ShiftOp(SHL, ShiftOp(SHR, a, 1), 1), AluOp(AND, a, Cell(1))) == a
  {
    hide ShiftOp, RotlBy, RotrBy, ShlBy, ShrBy, ShlOne, ShrOne, Both, Either;
    ByOne(a.w, 0);
    ByOne(ShrOne(a.w), 0);
    ShiftIs(a, 1);
    ShiftIs(Cell(ShrOne(a.w)), 1);
    HalveWords(a.w);
  }

  /** ... and brings a zero in at the top. */
  lemma ShrClearsTop(a: Cell)
    ensures AluOp(AND, ShiftOp(SHR, a, 1), Cell(TOP)) == ZERO
  {
    hide ShiftOp, RotlBy, RotrBy, ShlBy, ShrBy, ShlOne, ShrOne, Both;
    ByOne(a.w, 0);
    ShiftIs(a, 1);
    HalfIsSmall(a.w);
  }

  /** ROL by one moves 63 bits up ... */
  lemma RolMovesUp(a: Cell)
    ensures ShiftOp(SHR, ShiftOp(ROL, a, 1), 1) == AluOp(AND, a, Cell(0x7FFF_FFFF_FFFF_FFFF))
  {
    hide ShiftOp, RotlBy, RotrBy, ShlBy, ShrBy, RotlOne, ShrOne, Both;
    ByOne(a.w, 0);
    ByOne(RotlOne(a.w), 0);
    ShiftIs(a, 1);
    ShiftIs(Cell(RotlOne(a.w)), 1);
    TurnWords(a.w);
  }

  /** ... and the top bit to the bottom. */
  lemma RolTurnsTop(a: Cell)
    ensures AluOp(AND, ShiftOp(ROL, a, 1), Cell(1)) == Cell(1) <==> AluOp(AND, a, Cell(TOP)) == Cell(TOP)
  {
    hide ShiftOp, RotlBy, RotrBy, ShlBy, ShrBy, RotlOne, Both;
    ByOne(a.w, 0);
    ShiftIs(a, 1);
    TurnedBit(a.w);
  }

  /** ROR undoes ROL, for every amount. */
  lemma RotationLaws(a: Cell, n: byte)
    ensures ShiftOp(ROR, ShiftOp(ROL, a, n), n) == a && ShiftOp(ROL, ShiftOp(ROR, a, n), n) == a
  {
    hide RotlBy, RotrBy;
    RotationsCancel(a.w, n % 64);
  }

  // ---- flags and conditions -------------------------------------------------------------------------------------

  lemma BelowWords(a: Word, b: Word)
    ensures Below(a, b) == (a < b)
    ensures !Below(a, a) && !Below(a, 0) && (Below(0, b) <==> b != 0) && (Below(a, ONES) <==> a != ONES)
  {}

  lemma SignWords(a: Word, b: Word)
    ensures NegativeDifference(a, b) <==> Both(Minus(a, b), TOP) != 0
  {
    assert Both(a - b, TOP) == (a - b) & TOP;
  }

  lemma SubAndIs(a: Cell, b: Cell)
    ensures AluOp(AND, AluOp(SUB, a, b), Cell(TOP)) == Cell(Both(Minus(a.w, b.w), TOP))
  {
    hide Both, Minus;
  }

  /** CMOV's conditions after a CMP: equal, below without sign, the sign of the difference, and their negations. */
  lemma ConditionLaws(a: Cell, b: Cell, k: byte)
    ensures Condition(CmpFlags(a, b), 0) == Some(a == b)
    ensures Condition(CmpFlags(a, b), 2) == Some(a.w < b.w)
    ensures Condition(CmpFlags(a, b), 4) == Some(AluOp(AND, AluOp(SUB, a, b), Cell(TOP)) != ZERO)
    ensures k < 6 && k % 2 == 0 ==> Condition(CmpFlags(a, b), k + 1) == Some(!Condition(CmpFlags(a, b), k).value)
    ensures k >= 6 ==> Condition(CmpFlags(a, b), k) == None
  {
    hide Below, NegativeDifference, Both, Minus, AluOp;
    SubAndIs(a, b);
    BelowWords(a.w, b.w);
    SignWords(a.w, b.w);
  }

  // ---- the two hash steps ---------------------------------------------------------------------------------------

  lemma ScaleWords(x: Word)
    ensures Scale(x) == Times(x, 0x9E37_79B9_7F4A_7C15)
  {
    assert Times(x, 0x9E37_79B9_7F4A_7C15) == x * 0x9E37_79B9_7F4A_7C15;
    hide Times;
  }

  lemma BlendWords(a: Word, b: Word)
    ensures Blend(a, b) == Xor(a, Rotl64(b, 17))
  {
    hide Rotl64;
    LiteralLeftRotations(b);
    assert Xor(a, b.RotateLeft(17)) == Blend(a, b);
  }

  lemma ShakeWords(x: Word)
    ensures Shake(x) == Xor(x, ShrBy(x, 31))
  {
    hide ShrBy;
    LiteralRightShifts(x);
    assert Xor(x, x >> 31) == Shake(x);
  }

  lemma ShiftWords(a: Word, x: Word)
    ensures Shift(a, x) == Plus(x, Rotl64(a, 13))
  {
    hide Rotl64;
    LiteralLeftRotations(a);
    assert Plus(x, a.RotateLeft(13)) == Shift(a, x);
  }

  lemma PairWords(x: Word)
    ensures Pair7(x) == Xor(x, Rotr64(x, 7))
  {
    hide Rotr64;
    LiteralRightRotation(x);
    assert Xor(x, x.RotateRight(7)) == D7(x);
    hide D7, Xor;
  }

  lemma BlendCells(a: Cell, b: Cell)
    ensures AluOp(XOR, a, ShiftOp(ROL, b, 17)) == Cell(Blend(a.w, b.w))
  {
    hide Xor, Rotl64, Blend;
    BlendWords(a.w, b.w);
  }

  lemma ScaleCells(x: Word)
    ensures AluOp(MUL, Cell(x), Cell(0x9E37_79B9_7F4A_7C15)) == Cell(Scale(x))
  {
    hide Times, Scale;
    ScaleWords(x);
  }

  lemma ShakeCells(x: Word)
    ensures AluOp(XOR, Cell(x), ShiftOp(SHR, Cell(x), 31)) == Cell(Shake(x))
  {
    hide Xor, ShrBy, Shake;
    ShakeWords(x);
  }

  lemma ShiftCells(a: Cell, x: Word)
    ensures AluOp(ADD, Cell(x), ShiftOp(ROL, a, 13)) == Cell(Shift(a.w, x))
  {
    hide Plus, Rotl64, Shift;
    ShiftWords(a.w, x);
  }

  lemma PairCells(x: Word)
    ensures AluOp(XOR, Cell(x), ShiftOp(ROR, Cell(x), 7)) == Cell(Pair7(x))
  {
    hide Xor, Rotr64, Pair7;
    PairWords(x);
  }

  /** HASH_ROUND as five opcodes. */
  lemma HashIsFiveOpcodes(a: Cell, b: Cell)
    ensures var x1 := AluOp(XOR, a, ShiftOp(ROL, b, 17));
            var x2 := AluOp(MUL, x1, Cell(0x9E37_79B9_7F4A_7C15));
            var x3 := AluOp(XOR, x2, ShiftOp(SHR, x2, 31));
            var x4 := AluOp(ADD, x3, ShiftOp(ROL, a, 13));
            HashCells(a, b) == AluOp(XOR, x4, ShiftOp(ROR, x4, 7))
  {
    hide AluOp, ShiftOp, Blend, Scale, Shake, Shift, Pair7;
    var x1 := Blend(a.w, b.w);
    BlendCells(a, b);
    ScaleCells(x1);
    ShakeCells(Scale(x1));
    ShiftCells(a, Shake(Scale(x1)));
    PairCells(Shift(a.w, Shake(Scale(x1))));
  }

  /** MIX as three opcodes. */
  lemma MixIsThreeOpcodes(acc: Cell, val: Cell, rd: byte)
    requires rd < 16
    ensures MixCells(acc, val, rd) ==
            AluOp(ADD, acc, AluOp(XOR, ShiftOp(ROL, val, (rd * 7 + 13) % 64), Cell(0xD1B5_4A32_D192_ED03)))
  {
    hide Xor, Plus, RotlBy, MixMask, Mix;
    MixParts(acc.w, val.w, rd);
    MaskWords(RotlBy(val.w, (rd * 7 + 13) % 64));
  }

  lemma MaskWords(x: Word)
    ensures MixMask(x) == Xor(x, 0xD1B5_4A32_D192_ED03)
  {}

  // ---- paths and results ----------------------------------------------------------------------------------------

  function Xor32(a: bv32, b: bv32): bv32 { a ^ b }

  lemma FoldProduct(path: bv32)
    ensures FoldBits(path, 0, false) == path * 0x0100_0193
  {}

  lemma FoldSite(path: bv32, site: bv32)
    ensures FoldBits(path, site, false) == Xor32(FoldBits(path, 0, false), site)
  {
    assert FoldBits(path, 0, false) == path * 0x0100_0193;
  }

  lemma FoldDecision(path: bv32, site: bv32)
    ensures FoldBits(path, site, true) == Xor32(FoldBits(path, site, false), 1)
  {
    assert FoldBits(path, site, false) == (path * 0x0100_0193) ^ site;
  }

  /** The fold of a branch: the path times the FNV prime, into which address and decision enter bit by bit. */
  lemma FoldLaws(path: bv32, site: bv32)
    ensures FoldBits(path, 0, false) == path * 0x0100_0193
    ensures FoldBits(path, site, false) == Xor32(FoldBits(path, 0, false), site)
    ensures FoldBits(path, site, true) == Xor32(FoldBits(path, site, false), 1)
  {
    hide FoldBits, Xor32;
    FoldProduct(path);
    FoldSite(path, site);
    FoldDecision(path, site);
  }

  lemma HaltBitsAre(operand: bv32, path: bv32)
    ensures HaltBits(operand, 0) == operand && HaltBits(operand, path) == Xor32(operand, path & 0xFF)
  {}

  /** The halt code is the operand with the low byte of the path over it. */
  lemma HaltCodeLaws(operand: byte, path: Path)
    ensures HaltCode(operand, Path(0)) == operand as bv32
    ensures HaltCode(operand, path) == Xor32(operand as bv32, path.v & 0xFF)
  {
    hide HaltBits, Xor32;
    HaltBitsAre(operand as bv32, path.v);
  }

  /** A word leaves the engine as its eight bytes, most significant first. */
  lemma WordBytesAre(w: Word)
    ensures |WordBytes(w)| == 8 && Number(WordBytes(w)) == w as nat
  {
    Pow256Values();
    NumberOfBigEndian(w as nat, 8);
    hide BigEndian, Number, Pow256;
  }

  /** The numbers of the opcodes; every other byte is none. */
  lemma OpcodeNumbers(b: byte)
    ensures OpByte(NOP) == 0x00 && OpByte(MOV_RI) == 0x10 && OpByte(MOV_RR) == 0x11 && OpByte(LOAD) == 0x20
    ensures OpByte(STORE) == 0x21 && OpByte(ADD) == 0x30 && OpByte(SUB) == 0x31 && OpByte(MUL) == 0x32
    ensures OpByte(XOR) == 0x33 && OpByte(AND) == 0x34 && OpByte(OR) == 0x35 && OpByte(NOT) == 0x36
    ensures OpByte(ROL) == 0x40 && OpByte(ROR) == 0x41 && OpByte(SHL) == 0x42 && OpByte(SHR) == 0x43
    ensures OpByte(CMP) == 0x50 && OpByte(CMOV) == 0x51 && OpByte(JMP) == 0x60 && OpByte(JZ) == 0x61
    ensures OpByte(JNZ) == 0x62 && OpByte(CALL) == 0x63 && OpByte(RET) == 0x64 && OpByte(HASH_ROUND) == 0x70
    ensures OpByte(MIX) == 0x71 && OpByte(HALT) == 0xF0
    ensures OpOf(b) == None <==> forall o: Op :: OpByte(o) != b
  {
    hide OpByte, OpOf;
    forall o: Op ensures OpOf(OpByte(o)) == Some(o) { OpRoundTrip(o); }
    OpOfInjective(b);
    OpcodeTable();
    OpcodeTable40();
    OpcodeTable60();
  }

  lemma OpcodeTable()
    ensures OpByte(NOP) == 0x00 && OpByte(MOV_RI) == 0x10 && OpByte(MOV_RR) == 0x11 && OpByte(LOAD) == 0x20
    ensures OpByte(STORE) == 0x21 && OpByte(ADD) == 0x30 && OpByte(SUB) == 0x31 && OpByte(MUL) == 0x32
    ensures OpByte(XOR) == 0x33 && OpByte(AND) == 0x34 && OpByte(OR) == 0x35 && OpByte(NOT) == 0x36
  {}

  lemma OpcodeTable40()
    ensures OpByte(ROL) == 0x40 && OpByte(ROR) == 0x41 && OpByte(SHL) == 0x42 && OpByte(SHR) == 0x43
    ensures OpByte(CMP) == 0x50 && OpByte(CMOV) == 0x51
  {}

  lemma OpcodeTable60()
    ensures OpByte(JMP) == 0x60 && OpByte(JZ) == 0x61 && OpByte(JNZ) == 0x62 && OpByte(CALL) == 0x63
    ensures OpByte(RET) == 0x64 && OpByte(HASH_ROUND) == 0x70 && OpByte(MIX) == 0x71 && OpByte(HALT) == 0xF0
  {}
}
