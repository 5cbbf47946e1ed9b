/** 64-bit helpers of the virtual machine, and what its two hash steps do to their arguments. */
module Words {

  type Word = bv64

  // ---- the helpers, as both engines compute them --------------------------------------------

  function Plus(a: Word, b: Word): Word { a + b }
  function Minus(a: Word, b: Word): Word { a - b }
  function Times(a: Word, b: Word): Word { a * b }
  function Xor(a: Word, b: Word): Word { a ^ b }
  function Both(a: Word, b: Word): Word { a & b }
  function Either(a: Word, b: Word): Word { a | b }

  function RotlOne(x: Word): Word { (x << 1) | (x >> 63) }

  function RotrOne(x: Word): Word { (x >> 1) | (x << 63) }

  function RotlBy(x: Word, n: nat): Word
    decreases n
  { if n == 0 then x else RotlBy(RotlOne(x), n - 1) }

  function RotrBy(x: Word, n: nat): Word { if n == 0 then x else RotrOne(RotrBy(x, n - 1)) }

  // The code writes a rotation as two shifts and an `or`; here it is n rotations by one
  // (LiteralLeftRotations relates the two).
  function Rotl64(x: Word, n: nat): Word { RotlBy(x, n % 64) }

  function Rotr64(x: Word, n: nat): Word { RotrBy(x, n % 64) }

  function ShlOne(x: Word): Word { x << 1 }

  function ShrOne(x: Word): Word { x >> 1 }

  // A shift by n is n shifts by one.
  function ShlBy(x: Word, n: nat): Word { if n == 0 then x else ShlOne(ShlBy(x, n - 1)) }

  function ShrBy(x: Word, n: nat): Word { if n == 0 then x else ShrOne(ShrBy(x, n - 1)) }

  function HashRound(a: Word, b: Word): Word {
    Pair7(Stir(a, b))
  }

  function Mix(acc: Word, val: Word, rd: nat): Word {
    acc + (Rotl64(val, rd * 7 + 13) ^ 0xD1B54A32D192ED03)
  }

  // ---- the five statements of HashRound, and the inverses of the first four --------------------

  function Blend(a: Word, b: Word): Word { a ^ b.RotateLeft(17) }
  function Unblend(a: Word, y: Word): Word { (a ^ y).RotateRight(17) }

  function Scale(x: Word): Word { x * 0x9E3779B97F4A7C15 }
  function Unscale(y: Word): Word { y * 0xF1DE83E19937733D }

  function Shake(x: Word): Word { x ^ (x >> 31) }
  function Unshake(y: Word): Word { y ^ (y >> 31) ^ (y >> 62) }

  function Shift(a: Word, x: Word): Word { x + a.RotateLeft(13) }
  function Unshift(a: Word, y: Word): Word { y - a.RotateLeft(13) }

  function Pair7(x: Word): Word { D(x, 7) }

  // ---- each inverse undoes its statement, on both sides ---------------------------------------

  lemma UnblendBlend(a: Word, b: Word)
    ensures Unblend(a, Blend(a, b)) == b
    ensures Blend(a, Unblend(a, b)) == b
  {
    assert Unblend(a, a ^ b.RotateLeft(17)) == b;
    assert Blend(a, (a ^ b).RotateRight(17)) == b;
  }

  lemma UnscaleScale(x: Word)
    ensures Unscale(Scale(x)) == x
    ensures Scale(Unscale(x)) == x
  {
    assert Unscale(x * 0x9E3779B97F4A7C15) == x;
    assert Scale(x * 0xF1DE83E19937733D) == x;
  }

  lemma UnshakeShake(x: Word)
    ensures Unshake(Shake(x)) == x
    ensures Shake(Unshake(x)) == x
  {
    assert Unshake(x ^ (x >> 31)) == x;
    assert Shake(x ^ (x >> 31) ^ (x >> 62)) == x;
  }

  lemma UnshiftClosed(a: Word, x: Word)
    ensures Unshift(a, x + a.RotateLeft(13)) == x
    ensures Shift(a, x - a.RotateLeft(13)) == x
  {}

  lemma UnshiftShift(a: Word, x: Word)
    ensures Unshift(a, Shift(a, x)) == x
  {
    UnshiftClosed(a, x);
    hide Unshift;
    assert Shift(a, x) == x + a.RotateLeft(13);
  }

  lemma ShiftUnshift(a: Word, x: Word)
    ensures Shift(a, Unshift(a, x)) == x
  {
    UnshiftClosed(a, x);
    hide Shift;
    assert Unshift(a, x) == x - a.RotateLeft(13);
  }

  /** The first four statements together: for a fixed a, a bijection of b. */
  function Stir(a: Word, b: Word): Word { Shift(a, Shake(Scale(Blend(a, b)))) }

  function Unstir(a: Word, y: Word): Word { Unblend(a, Unscale(Unshake(Unshift(a, y)))) }

  lemma UnstirStir(a: Word, b: Word)
    ensures Unstir(a, Stir(a, b)) == b
    ensures Stir(a, Unstir(a, b)) == b
  {
    hide Blend, Unblend, Scale, Unscale, Shake, Unshake, Shift, Unshift;
    UnshiftShift(a, Shake(Scale(Blend(a, b))));
    UnshakeShake(Scale(Blend(a, b)));
    UnscaleScale(Blend(a, b));
    UnblendBlend(a, b);
    UnblendBlend(a, Unscale(Unshake(Unshift(a, b))));
    UnscaleScale(Unshake(Unshift(a, b)));
    UnshakeShake(Unshift(a, b));
    ShiftUnshift(a, b);
  }

  // ---- xor as a group, and the maps x ^ rotr(x, k) ---------------------------------------------

  predicate Amount(k: nat) { k == 1 || k == 2 || k == 4 || k == 7 || k == 8 || k == 16 || k == 32 }

  function D(x: Word, k: nat): Word
    requires Amount(k)
  {
    if k == 1 then D1(x) else if k == 2 then D2(x) else if k == 4 then D4(x) else if k == 7 then D7(x)
    else if k == 8 then D8(x) else if k == 16 then D16(x) else D32(x)
  }

  function D1(x: Word): Word { x ^ x.RotateRight(1) }
  function D2(x: Word): Word { x ^ x.RotateRight(2) }
  function D4(x: Word): Word { x ^ x.RotateRight(4) }
  function D7(x: Word): Word { x ^ x.RotateRight(7) }
  function D8(x: Word): Word { x ^ x.RotateRight(8) }
  function D16(x: Word): Word { x ^ x.RotateRight(16) }
  function D32(x: Word): Word { x ^ x.RotateRight(32) }

  /** Each bit of z is the xor of all 64 bits of y. */
  function Total(y: Word): Word { D(D(D(D(D(D(y, 1), 2), 4), 8), 16), 32) }

  predicate Doubling(k: nat) { k == 1 || k == 2 || k == 4 || k == 8 || k == 16 || k == 32 }

  lemma XorLaws(a: Word, b: Word)
    ensures Xor(a, Xor(a, b)) == b
    ensures Xor(a, a) == 0
    ensures Xor(a, b) == 0 ==> a == b
  {
    assert Xor(a, a ^ b) == b;
  }

  // The equations below hold for every amount; the code needs these amounts.
  lemma DLinear(a: Word, b: Word, k: nat)
    requires Doubling(k) || k == 7
    ensures D(Xor(a, b), k) == Xor(D(a, k), D(b, k))
  {
    if
    case k == 1 => assert D(a ^ b, 1) == Xor(a ^ a.RotateRight(1), b ^ b.RotateRight(1));
    case k == 2 => assert D(a ^ b, 2) == Xor(a ^ a.RotateRight(2), b ^ b.RotateRight(2));
    case k == 4 => assert D(a ^ b, 4) == Xor(a ^ a.RotateRight(4), b ^ b.RotateRight(4));
    case k == 7 => assert D(a ^ b, 7) == Xor(a ^ a.RotateRight(7), b ^ b.RotateRight(7));
    case k == 8 => assert D(a ^ b, 8) == Xor(a ^ a.RotateRight(8), b ^ b.RotateRight(8));
    case k == 16 => assert D(a ^ b, 16) == Xor(a ^ a.RotateRight(16), b ^ b.RotateRight(16));
    case k == 32 => assert D(a ^ b, 32) == Xor(a ^ a.RotateRight(32), b ^ b.RotateRight(32));
  }

  lemma DSquare1(a: Word)
    ensures D(D(a, 1), 1) == D(a, 2)
  {
    assert D(a ^ a.RotateRight(1), 1) == D(a, 2);
  }

  lemma DSquare2(a: Word)
    ensures D(D(a, 2), 2) == D(a, 4)
  {
    assert D(a ^ a.RotateRight(2), 2) == D(a, 4);
  }

  lemma DSquare4(a: Word)
    ensures D(D(a, 4), 4) == D(a, 8)
  {
    assert D(a ^ a.RotateRight(4), 4) == D(a, 8);
  }

  lemma DSquare8(a: Word)
    ensures D(D(a, 8), 8) == D(a, 16)
  {
    assert D(a ^ a.RotateRight(8), 8) == D(a, 16);
  }

  lemma DSquare16(a: Word)
    ensures D(D(a, 16), 16) == D(a, 32)
  {
    assert D(a ^ a.RotateRight(16), 16) == D(a, 32);
  }

  lemma DSquare32(a: Word)
    ensures D(D(a, 32), 32) == 0
  {
    assert D(a ^ a.RotateRight(32), 32) == 0;
  }

  lemma DSquare(a: Word, k: nat)
    requires Doubling(k) && k < 32
    ensures D(D(a, k), k) == D(a, 2 * k)
  {
    hide D;
    if
    case k == 1 => DSquare1(a);
    case k == 2 => DSquare2(a);
    case k == 4 => DSquare4(a);
    case k == 8 => DSquare8(a);
    case k == 16 => DSquare16(a);
  }

  lemma Kernel1(w: Word)
    requires D(w, 1) == 0
    ensures exists v :: w == D(v, 1)
  {
    assert w == D(var v := w & 0x1; var v := v ^ v.RotateRight(2); var v := v ^ v.RotateRight(4);
    var v := v ^ v.RotateRight(8); var v := v ^ v.RotateRight(16); var v := v ^ v.RotateRight(32); v, 1);
  }

  lemma Kernel2(w: Word)
    requires D(w, 2) == 0
    ensures exists v :: w == D(v, 2)
  {
    assert w == D(var v := w & 0x3; var v := v ^ v.RotateRight(4); var v := v ^ v.RotateRight(8);
    var v := v ^ v.RotateRight(16); var v := v ^ v.RotateRight(32); v, 2);
  }

  lemma Kernel4(w: Word)
    requires D(w, 4) == 0
    ensures exists v :: w == D(v, 4)
  {
    assert w == D(var v := w & 0xF; var v := v ^ v.RotateRight(8); var v := v ^ v.RotateRight(16);
    var v := v ^ v.RotateRight(32); v, 4);
  }

  lemma Kernel8(w: Word)
    requires D(w, 8) == 0
    ensures exists v :: w == D(v, 8)
  {
    assert w == D(var v := w & 0xFF; var v := v ^ v.RotateRight(16); var v := v ^ v.RotateRight(32); v, 8);
  }

  lemma Kernel16Closed(w: Word)
    requires w ^ w.RotateRight(16) == 0
    ensures exists v :: w == D(v, 16)
  {
    assert w == D((w & 0xFFFF) ^ (w & 0xFFFF).RotateRight(32), 16);
  }

  lemma Kernel16(w: Word)
    requires D(w, 16) == 0
    ensures exists v :: w == D(v, 16)
  {
    Kernel16Closed(w);
  }

  lemma Kernel32(w: Word)
    requires D(w, 32) == 0
    ensures exists v :: w == D(v, 32)
  {
    assert w == D(var v := w & 0xFFFF_FFFF; v, 32);
  }

  lemma Kernel(w: Word, k: nat) returns (v: Word)
    requires Doubling(k)
    requires D(w, k) == 0
    ensures w == D(v, k)
  {
    hide D;
    if {
      case k == 1 => Kernel1(w);
      case k == 2 => Kernel2(w);
      case k == 4 => Kernel4(w);
      case k == 8 => Kernel8(w);
      case k == 16 => Kernel16(w);
      case k == 32 => Kernel32(w);
    }
    v :| w == D(v, k);
  }

  /** One step down the chain: if D(p, k) is in the image of D(., 2k) then p is in the image of D(., k). */
  lemma Descend(p: Word, u: Word, k: nat) returns (v: Word)
    requires Doubling(k) && k < 32
    requires D(p, k) == D(u, 2 * k)
    ensures p == D(v, k)
  {
    hide D, Xor;
    var z := Xor(p, D(u, k));
    DLinear(p, D(u, k), k);
    DSquare(u, k);
    XorLaws(D(p, k), D(p, k));
    var t := Kernel(z, k);
    DLinear(u, t, k);
    XorLaws(D(u, k), p);
    XorCommutes(p, D(u, k));
    v := Xor(u, t);
  }

  lemma XorCommutes(a: Word, b: Word)
    ensures Xor(a, b) == Xor(b, a)
  {}

  lemma TotalZero(y: Word) returns (v: Word)
    requires Total(y) == 0
    ensures y == D(v, 1)
  {
    hide D;
    v := Kernel(D(D(D(D(D(y, 1), 2), 4), 8), 16), 32);
    v := Descend(D(D(D(D(y, 1), 2), 4), 8), v, 16);
    v := Descend(D(D(D(y, 1), 2), 4), v, 8);
    v := Descend(D(D(y, 1), 2), v, 4);
    v := Descend(D(y, 1), v, 2);
    v := Descend(y, v, 1);
  }

  lemma DCommutes2(a: Word)
    ensures D(D(a, 2), 1) == D(D(a, 1), 2)
  {
    assert D(a ^ a.RotateRight(2), 1) == D(a ^ a.RotateRight(1), 2);
  }

  lemma DCommutes4(a: Word)
    ensures D(D(a, 4), 1) == D(D(a, 1), 4)
  {
    assert D(a ^ a.RotateRight(4), 1) == D(a ^ a.RotateRight(1), 4);
  }

  lemma DCommutes8(a: Word)
    ensures D(D(a, 8), 1) == D(D(a, 1), 8)
  {
    assert D(a ^ a.RotateRight(8), 1) == D(a ^ a.RotateRight(1), 8);
  }

  lemma DCommutes16(a: Word)
    ensures D(D(a, 16), 1) == D(D(a, 1), 16)
  {
    assert D(a ^ a.RotateRight(16), 1) == D(a ^ a.RotateRight(1), 16);
  }

  lemma DCommutes32(a: Word)
    ensures D(D(a, 32), 1) == D(D(a, 1), 32)
  {
    assert D(a ^ a.RotateRight(32), 1) == D(a ^ a.RotateRight(1), 32);
  }

  lemma RotationBy1Fixes(d: Word)
    requires D(d, 1) == 0
    ensures d == 0 || d == 0xFFFF_FFFF_FFFF_FFFF
  {
    assert d == d.RotateRight(1);
  }

  lemma TotalUniform(y: Word)
    ensures Total(y) == 0 || Total(y) == 0xFFFF_FFFF_FFFF_FFFF
  {
    hide D;
    var a1 := D(y, 1);
    var a2 := D(a1, 2);
    var a4 := D(a2, 4);
    var a8 := D(a4, 8);
    var a16 := D(a8, 16);
    DCommutes32(a16); DCommutes16(a8); DCommutes8(a4); DCommutes4(a2); DCommutes2(a1);
    DSquare(y, 1); DSquare(y, 2); DSquare(y, 4); DSquare(y, 8); DSquare(y, 16);
    DSquare32(y);
    assert D(Total(y), 1) == D(D(y, 32), 32);
    RotationBy1Fixes(Total(y));
  }

  function R7(x: Word): Word { x.RotateRight(7) }

  lemma DRotates(x: Word, k: nat)
    requires Doubling(k)
    ensures D(R7(x), k) == R7(D(x, k))
  {
    if {
      case k == 1 => assert D(x.RotateRight(7), 1) == R7(x ^ x.RotateRight(1));
      case k == 2 => assert D(x.RotateRight(7), 2) == R7(x ^ x.RotateRight(2));
      case k == 4 => assert D(x.RotateRight(7), 4) == R7(x ^ x.RotateRight(4));
      case k == 8 => assert D(x.RotateRight(7), 8) == R7(x ^ x.RotateRight(8));
      case k == 16 => assert D(x.RotateRight(7), 16) == R7(x ^ x.RotateRight(16));
      case k == 32 => assert D(x.RotateRight(7), 32) == R7(x ^ x.RotateRight(32));
    }
  }

  lemma TotalRotates(x: Word)
    ensures Total(R7(x)) == Total(x)
  {
    hide D;
    DRotates(x, 1);
    DRotates(D(x, 1), 2);
    DRotates(D(D(x, 1), 2), 4);
    DRotates(D(D(D(x, 1), 2), 4), 8);
    DRotates(D(D(D(D(x, 1), 2), 4), 8), 16);
    DRotates(D(D(D(D(D(x, 1), 2), 4), 8), 16), 32);
    TotalUniform(x);
    assert R7(0) == 0 && R7(0xFFFF_FFFF_FFFF_FFFF) == 0xFFFF_FFFF_FFFF_FFFF;
  }

  lemma TotalLinear(a: Word, b: Word)
    ensures Total(Xor(a, b)) == Xor(Total(a), Total(b))
  {
    hide D, Xor;
    DLinear(a, b, 1);
    var a1, b1 := D(a, 1), D(b, 1);
    DLinear(a1, b1, 2);
    var a2, b2 := D(a1, 2), D(b1, 2);
    DLinear(a2, b2, 4);
    var a4, b4 := D(a2, 4), D(b2, 4);
    DLinear(a4, b4, 8);
    var a8, b8 := D(a4, 8), D(b4, 8);
    DLinear(a8, b8, 16);
    DLinear(D(a8, 16), D(b8, 16), 32);
  }

  predicate EvenParity(y: Word) {
    var y := y ^ (y >> 1);
    var y := y ^ (y >> 2);
    var y := y ^ (y >> 4);
    var y := y ^ (y >> 8);
    var y := y ^ (y >> 16);
    var y := y ^ (y >> 32);
    y & 1 == 0
  }

  // The nested calls of Total, written out: SpreadK is one expression, and the next one is DK of it.

  function Spread1(y: Word): Word {
    var v := y ^ y.RotateRight(1); v
  }

  function Spread2(y: Word): Word {
    var v := y ^ y.RotateRight(1); var v := v ^ v.RotateRight(2); v
  }

  function Spread4(y: Word): Word {
    var v := y ^ y.RotateRight(1); var v := v ^ v.RotateRight(2); var v := v ^ v.RotateRight(4); v
  }

  function Spread8(y: Word): Word {
    var v := y ^ y.RotateRight(1); var v := v ^ v.RotateRight(2); var v := v ^ v.RotateRight(4);
    var v := v ^ v.RotateRight(8); v
  }

  function Spread16(y: Word): Word {
    var v := y ^ y.RotateRight(1); var v := v ^ v.RotateRight(2); var v := v ^ v.RotateRight(4);
    var v := v ^ v.RotateRight(8); var v := v ^ v.RotateRight(16); v
  }

  function Spread32(y: Word): Word {
    var v := y ^ y.RotateRight(1); var v := v ^ v.RotateRight(2); var v := v ^ v.RotateRight(4);
    var v := v ^ v.RotateRight(8); var v := v ^ v.RotateRight(16); var v := v ^ v.RotateRight(32); v
  }

  lemma SpreadStep2(y: Word)
    ensures D2(Spread1(y)) == Spread2(y)
  {
    assert D2(var v := y ^ y.RotateRight(1); v) == Spread2(y);
  }

  lemma SpreadStep4(y: Word)
    ensures D4(Spread2(y)) == Spread4(y)
  {
    assert D4(var v := y ^ y.RotateRight(1); var v := v ^ v.RotateRight(2); v) == Spread4(y);
  }

  lemma SpreadStep8(y: Word)
    ensures D8(Spread4(y)) == Spread8(y)
  {
    assert D8(var v := y ^ y.RotateRight(1); var v := v ^ v.RotateRight(2); var v := v ^ v.RotateRight(4);
    v) == Spread8(y);
  }

  lemma SpreadStep16(y: Word)
    ensures D16(Spread8(y)) == Spread16(y)
  {
    assert D16(var v := y ^ y.RotateRight(1); var v := v ^ v.RotateRight(2); var v := v ^ v.RotateRight(4);
              var v := v ^ v.RotateRight(8); v) == Spread16(y);
  }

  lemma SpreadStep32(y: Word)
    ensures D32(Spread16(y)) == Spread32(y)
  {
    assert D32(var v := y ^ y.RotateRight(1); var v := v ^ v.RotateRight(2); var v := v ^ v.RotateRight(4);
              var v := v ^ v.RotateRight(8); var v := v ^ v.RotateRight(16); v) == Spread32(y);
  }

  lemma TotalIsSpread(y: Word)
    ensures Total(y) == Spread32(y)
  {
    assert Spread1(y) == D1(y);
    hide D1, D2, D4, D8, D16, D32, Spread1, Spread2, Spread4, Spread8, Spread16, Spread32;
    SpreadStep2(y); SpreadStep4(y); SpreadStep8(y); SpreadStep16(y); SpreadStep32(y);
  }

  lemma SpreadParity(y: Word)
    ensures EvenParity(y) <==> Spread32(y) & 1 == 0
  {}

  lemma ParityIsTotal(y: Word)
    ensures EvenParity(y) <==> Total(y) == 0
  {
    hide Total, Spread32, EvenParity;
    TotalIsSpread(y);
    SpreadParity(y);
    TotalUniform(y);
  }

  // ---- Pair7 identifies exactly a word and its complement; its image is the even words ---------

  function Flip(x: Word): Word { !x }

  lemma FlipLaws(x: Word, y: Word)
    ensures Flip(x) == Xor(x, 0xFFFF_FFFF_FFFF_FFFF)
    ensures Flip(x) != x
    ensures Xor(x, 0) == x
  {}

  lemma Pair7Flip(x: Word)
    ensures Pair7(Flip(x)) == Pair7(x)
  {
    assert D(0xFFFF_FFFF_FFFF_FFFF, 7) == 0;
    hide D, Xor, Flip;
    FlipLaws(x, x);
    FlipLaws(D(x, 7), x);
    DLinear(x, 0xFFFF_FFFF_FFFF_FFFF, 7);
  }

  lemma RotationBy7Fixes(d: Word)
    requires D(d, 7) == 0
    ensures d == 0 || d == 0xFFFF_FFFF_FFFF_FFFF
  {
    assert d == d.RotateRight(7);
  }

  lemma Pair7Collides(x: Word, y: Word)
    requires Pair7(x) == Pair7(y)
    ensures y == x || y == Flip(x)
  {
    hide D, Xor, Flip;
    DLinear(x, y, 7);
    XorLaws(D(x, 7), D(y, 7));
    RotationBy7Fixes(Xor(x, y));
    XorLaws(x, y);
    FlipLaws(x, y);
  }

  lemma Pair7Xor(x: Word)
    ensures Pair7(x) == Xor(x, R7(x))
  {
    assert Xor(x, x.RotateRight(7)) == D(x, 7);
    hide Xor, D;
  }

  lemma Pair7IsEven(x: Word)
    ensures EvenParity(Pair7(x))
  {
    hide Pair7, Xor, R7, Total, EvenParity;
    Pair7Xor(x);
    TotalLinear(x, R7(x));
    TotalRotates(x);
    XorLaws(Total(x), Total(x));
    ParityIsTotal(Pair7(x));
  }

  lemma Pair7Reaches(y: Word) returns (x: Word)
    requires EvenParity(y)
    ensures Pair7(x) == y
  {
    ParityIsTotal(y);
    hide EvenParity;
    var v := TotalZero(y);
    x := Pair7Root(v);
  }

  function Nine(u: Word): Word {
    u ^ u.RotateRight(7) ^ u.RotateRight(14) ^ u.RotateRight(21) ^ u.RotateRight(28) ^
    u.RotateRight(35) ^ u.RotateRight(42) ^ u.RotateRight(49) ^ u.RotateRight(56)
  }

  lemma NineClosed(v: Word)
    ensures D(var u := v.RotateRight(1);
              u ^ u.RotateRight(7) ^ u.RotateRight(14) ^ u.RotateRight(21) ^ u.RotateRight(28) ^
              u.RotateRight(35) ^ u.RotateRight(42) ^ u.RotateRight(49) ^ u.RotateRight(56), 7) ==
            v ^ v.RotateRight(1)
  {}

  lemma Pair7Root(v: Word) returns (x: Word)
    ensures Pair7(x) == D(v, 1)
  {
    NineClosed(v);
    assert D(v, 1) == v ^ v.RotateRight(1);
    hide D;
    x := Nine(v.RotateRight(1));
  }

  // ---- the results --------------------------------------------------------------------------------

  /** The one other argument with the same hash step. */
  function Twin(a: Word, b: Word): Word { Unstir(a, Flip(Stir(a, b))) }

  /** For every a, HashRound(a, .) is exactly two-to-one. */
  lemma HashRoundTwoToOne(a: Word, b: Word, c: Word)
    ensures HashRound(a, b) == HashRound(a, c) <==> c == b || c == Twin(a, b)
    ensures Twin(a, b) != b
  {
    hide Stir, Unstir, Pair7, Flip;
    UnstirStir(a, b);
    UnstirStir(a, c);
    UnstirStir(a, Flip(Stir(a, b)));
    Pair7Flip(Stir(a, b));
    FlipLaws(Stir(a, b), 0);
    if HashRound(a, b) == HashRound(a, c) {
      Pair7Collides(Stir(a, b), Stir(a, c));
    }
  }

  /** Its image is exactly the words with an even number of set bits. */
  lemma HashRoundImage(a: Word, z: Word)
    ensures EvenParity(z) <==> exists b :: HashRound(a, b) == z
  {
    hide Stir, Unstir, Pair7, EvenParity;
    forall b | HashRound(a, b) == z ensures EvenParity(z) {
      Pair7IsEven(Stir(a, b));
    }
    if EvenParity(z) {
      var x := Pair7Reaches(z);
      UnstirStir(a, x);
      assert HashRound(a, Unstir(a, x)) == z;
    }
  }

  function UnmixAcc(r: Word, val: Word, rd: nat): Word {
    r - (Rotl64(val, rd * 7 + 13) ^ 0xD1B54A32D192ED03)
  }

  function UnmixVal(r: Word, acc: Word, rd: nat): Word {
    Rotr64((r - acc) ^ 0xD1B54A32D192ED03, rd * 7 + 13)
  }

  lemma MixBijectiveInAcc(acc: Word, val: Word, rd: nat)
    ensures UnmixAcc(Mix(acc, val, rd), val, rd) == acc
    ensures Mix(UnmixAcc(acc, val, rd), val, rd) == acc
  {
    MixAccClosed(acc, val, rd);
    assert Mix(acc, val, rd) == acc + (Rotl64(val, rd * 7 + 13) ^ 0xD1B54A32D192ED03);
    assert UnmixAcc(acc, val, rd) == acc - (Rotl64(val, rd * 7 + 13) ^ 0xD1B54A32D192ED03);
    hide UnmixAcc, Mix;
  }

  lemma MixAccClosed(acc: Word, val: Word, rd: nat)
    ensures UnmixAcc(acc + (Rotl64(val, rd * 7 + 13) ^ 0xD1B54A32D192ED03), val, rd) == acc
    ensures Mix(acc - (Rotl64(val, rd * 7 + 13) ^ 0xD1B54A32D192ED03), val, rd) == acc
  {}

  lemma OneBack(x: Word)
    ensures RotrOne(RotlOne(x)) == x && RotlOne(RotrOne(x)) == x
  {
    assert RotrOne((x << 1) | (x >> 63)) == x;
    assert RotlOne((x >> 1) | (x << 63)) == x;
  }

  lemma {:induction false} RotationsCancel(x: Word, n: nat)
    ensures RotrBy(RotlBy(x, n), n) == x && RotlBy(RotrBy(x, n), n) == x
    decreases n
  {
    hide RotlOne, RotrOne;
    if n > 0 {
      RotationsCancel(RotlOne(x), n - 1);
      OneBack(x);
      RotationsCancel(x, n - 1);
      OneBack(RotrBy(x, n - 1));
    }
  }

  lemma {:induction false} RotlLast(x: Word, n: nat)
    ensures RotlBy(x, n + 1) == RotlOne(RotlBy(x, n))
    decreases n
  {
    hide RotlOne;
    if n > 0 { RotlLast(RotlOne(x), n - 1); }
  }

  lemma OneMoreLeft(x: Word)
    ensures RotlOne(x) == x.RotateLeft(1)
    ensures RotlOne(x.RotateLeft(1)) == x.RotateLeft(2)
    ensures RotlOne(x.RotateLeft(2)) == x.RotateLeft(3)
    ensures RotlOne(x.RotateLeft(3)) == x.RotateLeft(4)
    ensures RotlOne(x.RotateLeft(4)) == x.RotateLeft(5)
    ensures RotlOne(x.RotateLeft(5)) == x.RotateLeft(6)
    ensures RotlOne(x.RotateLeft(6)) == x.RotateLeft(7)
    ensures RotlOne(x.RotateLeft(7)) == x.RotateLeft(8)
    ensures RotlOne(x.RotateLeft(8)) == x.RotateLeft(9)
    ensures RotlOne(x.RotateLeft(9)) == x.RotateLeft(10)
    ensures RotlOne(x.RotateLeft(10)) == x.RotateLeft(11)
    ensures RotlOne(x.RotateLeft(11)) == x.RotateLeft(12)
    ensures RotlOne(x.RotateLeft(12)) == x.RotateLeft(13)
    ensures RotlOne(x.RotateLeft(13)) == x.RotateLeft(14)
    ensures RotlOne(x.RotateLeft(14)) == x.RotateLeft(15)
    ensures RotlOne(x.RotateLeft(15)) == x.RotateLeft(16)
    ensures RotlOne(x.RotateLeft(16)) == x.RotateLeft(17)
  {}

  lemma OneMoreRight(x: Word)
    ensures RotrOne(x) == x.RotateRight(1)
    ensures RotrOne(x.RotateRight(1)) == x.RotateRight(2)
    ensures RotrOne(x.RotateRight(2)) == x.RotateRight(3)
    ensures RotrOne(x.RotateRight(3)) == x.RotateRight(4)
    ensures RotrOne(x.RotateRight(4)) == x.RotateRight(5)
    ensures RotrOne(x.RotateRight(5)) == x.RotateRight(6)
    ensures RotrOne(x.RotateRight(6)) == x.RotateRight(7)
  {}

  lemma RotrLast(x: Word, n: nat)
    ensures RotrBy(x, n + 1) == RotrOne(RotrBy(x, n)) && RotrBy(x, 0) == x && RotlBy(x, 0) == x
  {}

  // The literal rotations in `HashRound` are rotations like any other.
  lemma LiteralLeftRotations(x: Word)
    ensures Rotl64(x, 13) == x.RotateLeft(13) && Rotl64(x, 17) == x.RotateLeft(17)
  {
    hide RotlOne, RotlBy, RotrBy;
    RotrLast(x, 0);
    OneMoreLeft(x);
    RotlLast(x, 0); RotlLast(x, 1); RotlLast(x, 2); RotlLast(x, 3); RotlLast(x, 4); RotlLast(x, 5); RotlLast(x, 6);
    RotlLast(x, 7); RotlLast(x, 8);
    RotlLast(x, 9); RotlLast(x, 10); RotlLast(x, 11); RotlLast(x, 12); RotlLast(x, 13); RotlLast(x, 14);
    RotlLast(x, 15); RotlLast(x, 16);
  }

  lemma LiteralRightRotation(x: Word)
    ensures Rotr64(x, 7) == x.RotateRight(7)
  {
    hide RotrOne, RotlBy, RotrBy;
    OneMoreRight(x);
    RotrLast(x, 0); RotrLast(x, 1); RotrLast(x, 2); RotrLast(x, 3); RotrLast(x, 4); RotrLast(x, 5); RotrLast(x, 6);
  }

  lemma OneMoreShift(x: Word)
    ensures ShrOne(x) == x >> 1
    ensures ShrOne(x >> 1) == x >> 2
    ensures ShrOne(x >> 2) == x >> 3
    ensures ShrOne(x >> 3) == x >> 4
    ensures ShrOne(x >> 4) == x >> 5
    ensures ShrOne(x >> 5) == x >> 6
    ensures ShrOne(x >> 6) == x >> 7
    ensures ShrOne(x >> 7) == x >> 8
    ensures ShrOne(x >> 8) == x >> 9
    ensures ShrOne(x >> 9) == x >> 10
    ensures ShrOne(x >> 10) == x >> 11
    ensures ShrOne(x >> 11) == x >> 12
    ensures ShrOne(x >> 12) == x >> 13
    ensures ShrOne(x >> 13) == x >> 14
    ensures ShrOne(x >> 14) == x >> 15
    ensures ShrOne(x >> 15) == x >> 16
    ensures ShrOne(x >> 16) == x >> 17
    ensures ShrOne(x >> 17) == x >> 18
    ensures ShrOne(x >> 18) == x >> 19
    ensures ShrOne(x >> 19) == x >> 20
    ensures ShrOne(x >> 20) == x >> 21
    ensures ShrOne(x >> 21) == x >> 22
    ensures ShrOne(x >> 22) == x >> 23
    ensures ShrOne(x >> 23) == x >> 24
    ensures ShrOne(x >> 24) == x >> 25
    ensures ShrOne(x >> 25) == x >> 26
    ensures ShrOne(x >> 26) == x >> 27
    ensures ShrOne(x >> 27) == x >> 28
    ensures ShrOne(x >> 28) == x >> 29
    ensures ShrOne(x >> 29) == x >> 30
    ensures ShrOne(x >> 30) == x >> 31
  {}

  lemma ShrLast(x: Word, n: nat)
    ensures ShrBy(x, n + 1) == ShrOne(ShrBy(x, n)) && ShrBy(x, 0) == x
  {}

  // The literal shifts in `HashRound` and in the programs are shifts like any other.
  lemma LiteralRightShifts(x: Word)
    ensures ShrBy(x, 5) == x >> 5 && ShrBy(x, 31) == x >> 31
  {
    hide ShrOne, ShrBy;
    OneMoreShift(x);
    ShrLast(x, 0); ShrLast(x, 1); ShrLast(x, 2); ShrLast(x, 3); ShrLast(x, 4); ShrLast(x, 5); ShrLast(x, 6);
    ShrLast(x, 7); ShrLast(x, 8); ShrLast(x, 9); ShrLast(x, 10); ShrLast(x, 11); ShrLast(x, 12); ShrLast(x, 13);
    ShrLast(x, 14); ShrLast(x, 15); ShrLast(x, 16); ShrLast(x, 17); ShrLast(x, 18); ShrLast(x, 19); ShrLast(x, 20);
    ShrLast(x, 21); ShrLast(x, 22); ShrLast(x, 23); ShrLast(x, 24); ShrLast(x, 25); ShrLast(x, 26); ShrLast(x, 27);
    ShrLast(x, 28); ShrLast(x, 29); ShrLast(x, 30);
  }

  lemma LiteralLeftShift(x: Word)
    ensures ShlBy(x, 3) == x << 3
  {
    assert ShlOne(x) == x << 1;
    assert ShlOne(x << 1) == x << 2;
    assert ShlOne(x << 2) == x << 3;
    hide ShlOne;
    assert ShlBy(x, 1) == x << 1;
  }

  function MixMask(x: Word): Word { x ^ 0xD1B54A32D192ED03 }

  lemma MaskTwice(x: Word)
    ensures MixMask(MixMask(x)) == x
  {
    assert MixMask(x ^ 0xD1B54A32D192ED03) == x;
  }

  lemma PlusMinus(a: Word, b: Word)
    ensures Minus(Plus(a, b), a) == b && Plus(a, Minus(b, a)) == b
  {
    assert Minus(a + b, a) == b && Plus(a, b - a) == b;
  }

  lemma MixParts(acc: Word, val: Word, rd: nat)
    ensures Mix(acc, val, rd) == Plus(acc, MixMask(Rotl64(val, rd * 7 + 13)))
    ensures UnmixVal(val, acc, rd) == Rotr64(MixMask(Minus(val, acc)), rd * 7 + 13)
  {
    hide Rotl64, Rotr64;
  }

  /** For each register and accumulator `Mix` permutes the values. */
  lemma MixBijectiveInVal(acc: Word, val: Word, rd: nat)
    ensures UnmixVal(Mix(acc, val, rd), acc, rd) == val
    ensures Mix(acc, UnmixVal(val, acc, rd), rd) == val
  {
    hide Mix, UnmixVal, RotlBy, RotrBy, MixMask, Plus, Minus;
    var n := (rd * 7 + 13) % 64;
    MixParts(acc, val, rd);
    MixParts(acc, Mix(acc, val, rd), rd);
    MixParts(acc, UnmixVal(val, acc, rd), rd);
    PlusMinus(acc, MixMask(RotlBy(val, n)));
    PlusMinus(acc, val);
    MaskTwice(RotlBy(val, n));
    MaskTwice(Minus(val, acc));
    RotationsCancel(val, n);
    RotationsCancel(MixMask(Minus(val, acc)), n);
  }
}
