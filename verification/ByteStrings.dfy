/** Byte strings and the big-endian integers the wire format and the bytecode are made of. */
module ByteStrings {

  type byte = n: int | 0 <= n < 256
  type Bytes = seq<byte>

  /** The result of something that may raise: None stands for the exception. */
  datatype Option<+T> = None | Some(value: T) {
    predicate IsFailure() { None? }

    function PropagateFailure<U>(): Option<U> { None }

    function Extract(): T
      requires Some?
    { value }
  }

  // ---- big-endian numbers -----------------------------------------------------------------------

  function Pow256(k: nat): (p: nat)
    ensures p > 0
  { if k == 0 then 1 else 256 * Pow256(k - 1) }

  /** The last k base-256 digits of n, most significant first. */
  function BigEndian(n: nat, k: nat): (b: Bytes)
    ensures |b| == k
  { if k == 0 then [] else BigEndian(n / 256, k - 1) + [n % 256] }

  function Number(b: Bytes): nat {
    if b == [] then 0 else Number(b[..|b| - 1]) * 256 + b[|b| - 1]
  }

  lemma {:induction false} NumberBound(b: Bytes)
    ensures Number(b) < Pow256(|b|)
  {
    if b != [] {
      NumberBound(b[..|b| - 1]);
    }
  }

  lemma {:induction false} NumberOfBigEndian(n: nat, k: nat)
    requires n < Pow256(k)
    ensures Number(BigEndian(n, k)) == n
  {
    if k > 0 {
      NumberOfBigEndian(n / 256, k - 1);
      assert BigEndian(n, k)[..k - 1] == BigEndian(n / 256, k - 1);
    }
  }

  lemma {:induction false} BigEndianOfNumber(b: Bytes)
    ensures BigEndian(Number(b), |b|) == b
  {
    if b != [] {
      BigEndianOfNumber(b[..|b| - 1]);
      assert Number(b) % 256 == b[|b| - 1];
      assert b == b[..|b| - 1] + [b[|b| - 1]];
    }
  }

  lemma NumberOfTwo(b: Bytes)
    requires |b| == 2
    ensures Number(b) == (b[0] as nat) * 256 + b[1]
  {
    assert b[..1][..0] == [];
    assert Number(b[..1]) == b[0];
  }

  lemma Pow256Values()
    ensures Pow256(1) == 0x100
    ensures Pow256(2) == 0x1_0000
    ensures Pow256(4) == 0x1_0000_0000
    ensures Pow256(8) == 0x1_0000_0000_0000_0000
  {
    assert Pow256(3) == 0x100_0000;
    assert Pow256(6) == 0x1_0000_0000_0000;
  }

  /** The bytes of an ASCII literal. */
  function Ascii(s: string): (b: Bytes)
    ensures |b| == |s|
  { seq(|s|, i requires 0 <= i < |s| => if s[i] < 128 as char then s[i] as int else 0x3F) }

  // ---- exclusive or of bytes, bit by bit --------------------------------------------------------------

  /** Exclusive or of the low k bits. */
  function XorBits(a: nat, b: nat, k: nat): nat {
    if k == 0 then 0 else 2 * XorBits(a / 2, b / 2, k - 1) + (if a % 2 != b % 2 then 1 else 0)
  }

  function Power2(k: nat): (p: nat)
    ensures p > 0
  { if k == 0 then 1 else 2 * Power2(k - 1) }

  lemma {:induction false} XorBitsBound(a: nat, b: nat, k: nat)
    ensures XorBits(a, b, k) < Power2(k)
  {
    if k > 0 { XorBitsBound(a / 2, b / 2, k - 1); }
  }

  lemma {:induction false} XorBitsCancel(a: nat, b: nat, k: nat)
    requires a < Power2(k)
    ensures XorBits(XorBits(a, b, k), b, k) == a
  {
    if k > 0 { XorBitsCancel(a / 2, b / 2, k - 1); }
  }

  lemma {:induction false} XorBitsLaws(a: nat, b: nat, c: nat, k: nat)
    ensures XorBits(a, b, k) == XorBits(b, a, k)
    ensures XorBits(XorBits(a, b, k), c, k) == XorBits(a, XorBits(b, c, k), k)
  {
    if k > 0 { XorBitsLaws(a / 2, b / 2, c / 2, k - 1); }
  }

  function XorByte(a: byte, b: byte): byte {
    XorBitsBound(a, b, 8);
    assert Power2(4) == 16 && Power2(8) == 256;
    XorBits(a, b, 8)
  }

  lemma XorByteLaws(a: byte, b: byte, c: byte)
    ensures XorByte(XorByte(a, b), b) == a
    ensures XorByte(a, b) == XorByte(b, a)
    ensures XorByte(XorByte(a, b), c) == XorByte(a, XorByte(b, c))
  {
    assert Power2(4) == 16 && Power2(8) == 256;
    XorBitsCancel(a, b, 8);
    XorBitsLaws(a, b, c, 8);
  }

  /** Bit i of a number. */
  function BitAt(n: nat, i: nat): nat { if i == 0 then n % 2 else BitAt(n / 2, i - 1) }

  lemma {:induction false} XorBitAt(a: nat, b: nat, k: nat, i: nat)
    requires i < k
    ensures BitAt(XorBits(a, b, k), i) == (BitAt(a, i) + BitAt(b, i)) % 2
  {
    if i > 0 { XorBitAt(a / 2, b / 2, k - 1, i - 1); }
  }

  /** The exclusive or of two bytes has the bits that one of them has and the other has not. */
  lemma XorByteAt(a: byte, b: byte, i: nat)
    requires i < 8
    ensures BitAt(XorByte(a, b), i) == (BitAt(a, i) + BitAt(b, i)) % 2
  {
    XorBitAt(a, b, 8, i);
    hide XorBits;
  }

  /** ASCII characters keep their codes, so different literals stay different. */
  lemma AsciiIs(s: string, t: string)
    requires forall i :: 0 <= i < |s| ==> s[i] < 128 as char
    requires forall i :: 0 <= i < |t| ==> t[i] < 128 as char
    ensures forall i :: 0 <= i < |s| ==> Ascii(s)[i] == s[i] as int
    ensures Ascii(s) == Ascii(t) ==> s == t
  {
    assert forall i :: 0 <= i < |t| ==> Ascii(t)[i] == t[i] as int;
    if Ascii(s) == Ascii(t) {
      assert |s| == |t|;
      assert forall i :: 0 <= i < |s| ==> Ascii(s)[i] == Ascii(t)[i];
    }
  }
}
