/** Base64 as the client writes it, against section 4 of RFC 4648. */
module Base64 {
  import opened ByteStrings
  import opened Blanks

  type sextet = n: int | 0 <= n < 64

  // ---- base-64 numbers --------------------------------------------------------------------------------------

  /** The last k base-64 digits of n, most significant first. */
  function Digits(n: nat, k: nat): (d: seq<sextet>)
    ensures |d| == k
  { if k == 0 then [] else Digits(n / 64, k - 1) + [n % 64] }

  function Value(d: seq<sextet>): nat { if d == [] then 0 else Value(d[..|d| - 1]) * 64 + d[|d| - 1] }

  function Pow64(k: nat): (p: nat)
    ensures p > 0
  { if k == 0 then 1 else 64 * Pow64(k - 1) }

  lemma {:induction false} ValueOfDigits(n: nat, k: nat)
    requires n < Pow64(k)
    ensures Value(Digits(n, k)) == n
  {
    if k > 0 {
      ValueOfDigits(n / 64, k - 1);
      assert Digits(n, k)[..k - 1] == Digits(n / 64, k - 1);
    }
  }

  // ---- the definition ---------------------------------------------------------------------------------------

  /** How many zero bits complete the last sextet: 0, 4 or 2. */
  function FillBits(len: nat): nat { if len % 3 == 0 then 0 else if len % 3 == 1 then 4 else 2 }

  function Fill(len: nat): nat { if len % 3 == 0 then 1 else if len % 3 == 1 then 16 else 4 }

  function SextetCount(len: nat): nat { (8 * len + FillBits(len)) / 6 }

  /** The bits of the data with zero bits on the right, read as sextets. */
  function Sextets(data: Bytes): seq<sextet> { Digits(Number(data) * Fill(|data|), SextetCount(|data|)) }

  /** Table 1 of the standard. */
  function Letter(v: sextet): char {
    if v < 26 then ('A' as int + v) as char
    else if v < 52 then ('a' as int + v - 26) as char
    else if v < 62 then ('0' as int + v - 52) as char
    else if v == 62 then '+' else '/'
  }

  function Letters(d: seq<sextet>): (t: string)
    ensures |t| == |d|
  { seq(|d|, i requires 0 <= i < |d| => Letter(d[i])) }

  function Padding(len: nat): string { if len % 3 == 0 then "" else if len % 3 == 1 then "==" else "=" }

  function Encoded(data: Bytes): string { Letters(Sextets(data)) + Padding(|data|) }

  function Meaning(c: char): Option<sextet> {
    if 'A' <= c <= 'Z' then Some(c as int - 'A' as int)
    else if 'a' <= c <= 'z' then Some(c as int - 'a' as int + 26)
    else if '0' <= c <= '9' then Some(c as int - '0' as int + 52)
    else if c == '+' then Some(62) else if c == '/' then Some(63) else None
  }

  /** The sextets before the first '='; blanks do not count, and any other character raises. */
  function Read(text: string): Option<seq<sextet>> {
    if text == [] || text[0] == '=' then Some([])
    else if Blank(text[0]) then Read(text[1..])
    else
      var v :- Meaning(text[0]);
      var rest :- Read(text[1..]);
      Some([v] + rest)
  }

  /** Whole bytes only: bits left over at the end are dropped. */
  function Regrouped(d: seq<sextet>): Bytes { BigEndian(Value(d) / Power2(6 * |d| % 8), 6 * |d| / 8) }

  function Decoded(text: string): Option<Bytes> {
    var d :- Read(text);
    Some(Regrouped(d))
  }

  // ---- decoding undoes encoding -----------------------------------------------------------------------------

  lemma MeaningOfLetter(v: sextet)
    ensures Meaning(Letter(v)) == Some(v) && !Blank(Letter(v)) && Letter(v) != '='
  {}

  lemma {:induction false} ReadLetters(d: seq<sextet>, rest: string)
    requires rest == [] || rest[0] == '='
    ensures Read(Letters(d) + rest) == Some(d)
  {
    hide Letter, Meaning;
    if d != [] {
      MeaningOfLetter(d[0]);
      ReadLetters(d[1..], rest);
      assert (Letters(d) + rest)[1..] == Letters(d[1..]) + rest;
      assert d == [d[0]] + d[1..];
    } else {
      assert Letters(d) + rest == rest;
    }
  }

  lemma {:induction false} PowersMeet(q: nat)
    ensures Pow256(3 * q) == Pow64(4 * q)
  {
    if q > 0 {
      PowersMeet(q - 1);
      assert Pow256(3 * q) == 256 * Pow256(3 * q - 1) && Pow256(3 * q - 1) == 256 * Pow256(3 * q - 2)
          && Pow256(3 * q - 2) == 256 * Pow256(3 * (q - 1));
      assert Pow64(4 * q) == 64 * Pow64(4 * q - 1) && Pow64(4 * q - 1) == 64 * Pow64(4 * q - 2)
          && Pow64(4 * q - 2) == 64 * Pow64(4 * q - 3) && Pow64(4 * q - 3) == 64 * Pow64(4 * (q - 1));
    }
  }

  lemma SextetCounts(q: nat)
    ensures SextetCount(3 * q) == 4 * q && SextetCount(3 * q + 1) == 4 * q + 2 && SextetCount(3 * q + 2) == 4 * q + 3
    ensures Fill(3 * q) == 1 && Fill(3 * q + 1) == 16 && Fill(3 * q + 2) == 4
    ensures FillBits(3 * q) == 0 && FillBits(3 * q + 1) == 4 && FillBits(3 * q + 2) == 2
  {}

  lemma PowerSteps(k: nat)
    ensures Pow256(k + 1) == 256 * Pow256(k) && Pow256(k + 2) == 0x1_0000 * Pow256(k)
    ensures Pow64(k + 2) == 4096 * Pow64(k) && Pow64(k + 3) == 0x4_0000 * Pow64(k)
  {
    assert Pow256(k + 2) == 256 * Pow256(k + 1);
    assert Pow64(k + 3) == 64 * Pow64(k + 2) && Pow64(k + 2) == 64 * Pow64(k + 1);
  }

  /** The filled number fits the sextets. */
  lemma FilledFits(len: nat)
    ensures Pow256(len) * Fill(len) == Pow64(SextetCount(len))
  {
    hide Pow256, Pow64, Fill, SextetCount;
    var q := len / 3;
    PowersMeet(q);
    SextetCounts(q);
    PowerSteps(3 * q);
    PowerSteps(4 * q);
    assert len == 3 * q || len == 3 * q + 1 || len == 3 * q + 2;
  }

  /** For every byte string. */
  lemma DecodeEncode(data: Bytes)
    ensures Decoded(Encoded(data)) == Some(data)
  {
    ReadLetters(Sextets(data), Padding(|data|));
    NumberBound(data);
    FilledFits(|data|);
    Scale(Number(data), Pow256(|data|), Fill(|data|));
    ValueOfDigits(Number(data) * Fill(|data|), SextetCount(|data|));
    FillDivides(data);
    BigEndianOfNumber(data);
  }

  lemma Scale(a: nat, b: nat, f: nat)
    requires a < b && f > 0
    ensures a * f < b * f
  {}

  lemma FillCancels(n: nat, len: nat)
    ensures n * Fill(len) / Fill(len) == n
  {
    assert n * 1 / 1 == n && n * 4 / 4 == n && n * 16 / 16 == n;
  }

  lemma FillPower(len: nat)
    ensures 6 * SextetCount(len) == 8 * len + FillBits(len) && Power2(FillBits(len)) == Fill(len)
  {
    assert Power2(0) == 1 && Power2(2) == 4 && Power2(4) == 16;
    hide Power2, Fill, FillBits, SextetCount;
    SextetCounts(len / 3);
    assert len == 3 * (len / 3) || len == 3 * (len / 3) + 1 || len == 3 * (len / 3) + 2;
  }

  lemma FillDivides(data: Bytes)
    ensures var n := SextetCount(|data|);
            6 * n / 8 == |data| && Power2(6 * n % 8) == Fill(|data|)
                && Number(data) * Fill(|data|) / Fill(|data|) == Number(data)
  {
    hide Number, SextetCount;
    FillPower(|data|);
    FillCancels(Number(data), |data|);
    hide Power2, Fill;
  }

  // ---- blanks -----------------------------------------------------------------------------------------------

  /** Blanks anywhere in the text, before or behind the padding, do not change what it decodes to. */
  lemma {:induction false} BlanksDoNotCount(text: string)
    ensures Read(text) == Read(Unblanked(text)) && Decoded(text) == Decoded(Unblanked(text))
  {
    hide Meaning;
    if text != [] {
      BlanksDoNotCount(text[1..]);
      if !Blank(text[0]) {
        assert Unblanked(text) == [text[0]] + Unblanked(text[1..]);
        assert Unblanked(text)[1..] == Unblanked(text[1..]);
      } else {
        assert Unblanked(text) == Unblanked(text[1..]);
      }
    }
  }

  // ---- the encoder ------------------------------------------------------------------------------------------

  lemma NextDigit(n: nat, k: nat, v: sextet)
    ensures Digits(64 * n + v, k + 1) == Digits(n, k) + [v]
  {}

  lemma TwoDigits(n: nat, k: nat, x: nat)
    requires x < 4096
    ensures Digits(4096 * n + x, k + 2) == Digits(n, k) + [x / 64, x % 64]
  {
    NextDigit(n, k, x / 64);
    NextDigit(64 * n + x / 64, k + 1, x % 64);
  }

  lemma FourParts(x: nat)
    requires x < 0x100_0000
    ensures x / 4096 / 64 == x / 0x4_0000 % 64 && x % 4096 / 64 == x / 64 % 64 && x % 4096 % 64 == x % 64
  {
    assert x / 4096 / 64 == x / 0x4_0000;
  }

  lemma FourDigits(n: nat, k: nat, x: nat)
    requires x < 0x100_0000
    ensures Digits(0x100_0000 * n + x, k + 4) == Digits(n, k) + [x / 0x4_0000 % 64, x / 4096 % 64, x / 64 % 64, x % 64]
  {
    hide Digits;
    FourParts(x);
    var high, low := x / 4096, x % 4096;
    assert 4096 * (4096 * n + high) + low == 0x100_0000 * n + x;
    TwoDigits(n, k, high);
    TwoDigits(4096 * n + high, k + 2, low);
  }

  lemma NextByte(data: Bytes, i: nat)
    requires i < |data|
    ensures Number(data[..i + 1]) == 256 * Number(data[..i]) + data[i]
  {
    assert data[..i + 1][..i] == data[..i];
  }

  lemma LettersAppend(d: seq<sextet>, e: seq<sextet>)
    ensures Letters(d + e) == Letters(d) + Letters(e)
  {
    hide Letter;
  }

  /** The 24-bit group n as four letters; shifts and masks as divisions. */
  method Group(a: byte, b: byte, c: byte) returns (t: string, ghost x: nat)
    ensures x == 0x1_0000 * a + 256 * b + c
    ensures t == Letters([x / 0x4_0000 % 64, x / 4096 % 64, x / 64 % 64, x % 64])
  {
    hide Letter;
    var n := 0x1_0000 * a + 256 * b + c;
    x := n;
    t := "";
    t := t + [Letter(n / 0x4_0000 % 64)];
    t := t + [Letter(n / 4096 % 64)];
    t := t + [Letter(n / 64 % 64)];
    t := t + [Letter(n % 64)];
  }

  /** The last byte, if it stands alone. */
  method TailOfOne(data: Bytes, ghost q: nat) returns (t: string)
    requires |data| == 3 * q + 1
    ensures Letters(Digits(Number(data[..3 * q]), 4 * q)) + t == Encoded(data)
  {
    hide Letter, Digits, Number, SextetCount;
    SextetCounts(q);
    var i := |data| - 1;
    NextByte(data, i);
    assert data[..i + 1] == data;
    var a: nat := data[i];
    var n := 0x1_0000 * a;
    TwoDigits(Number(data[..i]), 4 * q, 16 * a);
    assert n / 0x4_0000 % 64 == 16 * a / 64 && n / 4096 % 64 == 16 * a % 64;
    LettersAppend(Digits(Number(data[..i]), 4 * q), [16 * a / 64, 16 * a % 64]);
    t := [Letter(n / 0x4_0000 % 64), Letter(n / 4096 % 64)] + "==";
  }

  lemma TwoBytes(w: nat)
    requires w < 0x1_0000
    ensures 256 * w / 0x4_0000 % 64 == 4 * w / 64 / 64 && 256 * w / 4096 % 64 == 4 * w / 64 % 64
        && 256 * w / 64 % 64 == 4 * w % 64
  {}

  /** The last two bytes. */
  method TailOfTwo(data: Bytes, ghost q: nat) returns (t: string)
    requires |data| == 3 * q + 2
    ensures Letters(Digits(Number(data[..3 * q]), 4 * q)) + t == Encoded(data)
  {
    hide Letter, Digits, Number, SextetCount;
    SextetCounts(q);
    var i := |data| - 2;
    NextByte(data, i);
    NextByte(data, i + 1);
    assert data[..i + 2] == data;
    var a: nat, b: nat := data[i], data[i + 1];
    var n := 0x1_0000 * a + 256 * b;
    ghost var x, m := 4 * (256 * a + b), Number(data[..i]);
    TwoDigits(m, 4 * q, x / 64);
    NextDigit(4096 * m + x / 64, 4 * q + 2, x % 64);
    TwoBytes(256 * a + b);
    LettersAppend(Digits(m, 4 * q), [x / 64 / 64, x / 64 % 64, x % 64]);
    t := [Letter(n / 0x4_0000 % 64), Letter(n / 4096 % 64), Letter(n / 64 % 64)] + "=";
  }

  method Encode(data: Bytes) returns (out: string)
    ensures out == Encoded(data)
  {
    hide Letters, Digits, Number, Encoded;
    out := "";
    var i := 0;
    ghost var q := 0;
    EmptyEncodes(data);
    while i + 3 <= |data|
      invariant i == 3 * q <= |data| && out == Letters(Digits(Number(data[..i]), 4 * q))
      decreases |data| - i
    {
      NextByte(data, i);
      NextByte(data, i + 1);
      NextByte(data, i + 2);
      var t, x := Group(data[i], data[i + 1], data[i + 2]);
      FourDigits(Number(data[..i]), 4 * q, x);
      LettersAppend(Digits(Number(data[..i]), 4 * q), [x / 0x4_0000 % 64, x / 4096 % 64, x / 64 % 64, x % 64]);
      out := out + t;
      i := i + 3;
      q := q + 1;
    }
    var rem := |data| - i;
    if rem == 1 {
      var t := TailOfOne(data, q);
      out := out + t;
    } else if rem == 2 {
      var t := TailOfTwo(data, q);
      out := out + t;
    } else {
      WholeGroups(data, q);
    }
  }

  lemma EmptyEncodes(data: Bytes)
    ensures Letters(Digits(Number(data[..0]), 0)) == ""
  {}

  lemma WholeGroups(data: Bytes, q: nat)
    requires |data| == 3 * q
    ensures Letters(Digits(Number(data[..3 * q]), 4 * q)) == Encoded(data)
  {
    SextetCounts(q);
    assert data[..3 * q] == data;
    hide Letters, Digits, Number;
  }

  // ---- the decoder ------------------------------------------------------------------------------------------

  const WRAP: nat := 0x1_0000_0000

  /** The letters read so far as whole bytes and the bits still pending in the 32-bit accumulator. */
  ghost predicate Holds(d: seq<sextet>, out: Bytes, buf: nat, bits: nat) {
    && bits < 8 && bits % 2 == 0 && 6 * |d| == 8 * |out| + bits
    && buf == Value(d) % WRAP && out == BigEndian(Value(d) / Power2(bits), |out|)
  }

  lemma SmallPowers()
    ensures Power2(0) == 1 && Power2(2) == 4 && Power2(4) == 16 && Power2(6) == 64
  {
    assert Power2(3) == 8;
  }

  lemma WrapPush(x: nat, v: sextet)
    ensures (64 * (x % WRAP) + v) % WRAP == (64 * x + v) % WRAP
  {
    assert x == WRAP * (x / WRAP) + x % WRAP;
    assert 64 * x + v == WRAP * (64 * (x / WRAP)) + (64 * (x % WRAP) + v);
  }

  // The byte behind at most four pending bits is not touched by the wrap.
  lemma WrapKeepsByte0(n: nat)
    ensures (n % WRAP) / 1 % 256 == n / 1 % 256
  {
    SplitByte(n / WRAP * 0x100_0000, n % WRAP);
  }

  lemma WrapKeepsByte2(n: nat)
    ensures (n % WRAP) / 4 % 256 == n / 4 % 256
  {
    assert n / 4 == 0x4000_0000 * (n / WRAP) + n % WRAP / 4;
    SplitByte(n / WRAP * 0x40_0000, n % WRAP / 4);
  }

  lemma WrapKeepsByte4(n: nat)
    ensures (n % WRAP) / 16 % 256 == n / 16 % 256
  {
    assert n / 16 == 0x1000_0000 * (n / WRAP) + n % WRAP / 16;
    SplitByte(n / WRAP * 0x10_0000, n % WRAP / 16);
  }

  lemma SplitByte(q: nat, r: nat)
    ensures (256 * q + r) % 256 == r % 256
  {}

  lemma ShiftQuotients(x: nat, v: sextet)
    ensures (64 * x + v) / 64 == x / 1
    ensures (64 * x + v) / 1 / 256 == x / 4 && (64 * x + v) / 4 / 256 == x / 16 && (64 * x + v) / 16 / 256 == x / 64
  {}

  /** One letter: the wrap of the accumulator loses none of the at most 13 pending bits. */
  lemma Push(d: seq<sextet>, out: Bytes, buf: nat, bits: nat, v: sextet)
    requires Holds(d, out, buf, bits)
    ensures var d', buf' := d + [v], (64 * buf + v) % WRAP;
            && (bits + 6 < 8 ==> Holds(d', out, buf', bits + 6))
            && (bits + 6 >= 8 ==> Holds(d', out + [buf' / Power2(bits - 2) % 256], buf', bits - 2))
  {
    hide Power2, Value;
    SmallPowers();
    var n := 64 * Value(d) + v;
    ValueAppend(d, v);
    WrapPush(Value(d), v);
    WrapKeepsByte0(n);
    WrapKeepsByte2(n);
    WrapKeepsByte4(n);
    ShiftQuotients(Value(d), v);
    if bits > 0 {
      assert bits == 2 || bits == 4 || bits == 6;
      NextBytes(n / Power2(bits - 2), |out|);
    }
  }

  lemma ValueAppend(d: seq<sextet>, v: sextet)
    ensures Value(d + [v]) == 64 * Value(d) + v
  {
    assert (d + [v])[..|d|] == d;
  }

  lemma NextBytes(m: nat, k: nat)
    ensures BigEndian(m, k + 1) == BigEndian(m / 256, k) + [m % 256]
  {}

  /** The loop of the decoder: '=' ends it, blanks are skipped, an invalid letter raises. */
  method Decode(text: string) returns (r: Option<Bytes>)
    ensures r == Decoded(text)
  {
    hide Holds, Meaning, Regrouped, Power2;
    var out: Bytes := [];
    var buf: nat, bits: nat, i: nat := 0, 0, 0;
    ghost var d: seq<sextet> := [];
    NothingHeld();
    ReadFrom(text);
    while i < |text|
      invariant 0 <= i <= |text| && Holds(d, out, buf, bits) && bits < 8
      invariant Read(text) == Joined(d, Read(text[i..]))
    {
      var c := text[i];
      assert text[i..][0] == c && text[i..][1..] == text[i + 1..];
      if c == '=' { break; }
      i := i + 1;
      if Blank(c) { continue; }
      var v := Meaning(c);
      if v.None? { return None; }
      JoinedNext(d, v.value, Read(text[i..]));
      Push(d, out, buf, bits, v.value);
      HeldBits(d, out, buf, bits);
      d := d + [v.value];
      buf := (64 * buf + v.value) % WRAP;
      bits := bits + 6;
      if bits >= 8 {
        bits := bits - 8;
        out := out + [buf / Power2(bits) % 256];
      }
      HeldBits(d, out, buf, bits);
    }
    assert Read(text[i..]) == Some([]) && d + [] == d;
    AllRegrouped(d, out, buf, bits);
    r := Some(out);
  }

  function Joined(d: seq<sextet>, rest: Option<seq<sextet>>): Option<seq<sextet>> {
    match rest case None => None case Some(e) => Some(d + e)
  }

  lemma JoinedNext(d: seq<sextet>, v: sextet, rest: Option<seq<sextet>>)
    ensures Joined(d, match rest case None => None case Some(e) => Some([v] + e)) == Joined(d + [v], rest)
  {
    if rest.Some? { assert d + ([v] + rest.value) == d + [v] + rest.value; }
  }

  lemma ReadFrom(text: string)
    ensures Read(text) == Joined([], Read(text[0..]))
  {
    assert text[0..] == text;
    if Read(text).Some? { assert [] + Read(text).value == Read(text).value; }
  }

  lemma NothingHeld()
    ensures Holds([], [], 0, 0)
  {}

  lemma HeldBits(d: seq<sextet>, out: Bytes, buf: nat, bits: nat)
    requires Holds(d, out, buf, bits)
    ensures bits < 8
  {}

  lemma AllRegrouped(d: seq<sextet>, out: Bytes, buf: nat, bits: nat)
    requires Holds(d, out, buf, bits)
    ensures out == Regrouped(d)
  {
    assert 6 * |d| % 8 == bits && 6 * |d| / 8 == |out|;
  }

  // ---- the standard's own examples --------------------------------------------------------------------------

  /** The alphabet runs from A, a and 0 and ends with two signs. */
  lemma AlphabetIs(v: sextet)
    ensures Letter(0) == 'A' && Letter(26) == 'a' && Letter(52) == '0' && Letter(62) == '+' && Letter(63) == '/'
    ensures v < 61 && v != 25 && v != 51 ==> Letter(v + 1) as int == Letter(v) as int + 1
  {}

  /** Test vectors of section 10 of RFC 4648: "f" and "foo". */
  lemma TestVectors()
    ensures Encoded([0x66]) == "Zg==" && Encoded([0x66, 0x6F, 0x6F]) == "Zm9v"
  {
    assert Number([0x66, 0x6F]) == 0x666F;
    assert Number([0x66, 0x6F, 0x6F]) == 0x66_6F6F && Number([0x66]) == 0x66;
    assert Digits(25, 1) == [25];
    assert Digits(1632, 2) == [25, 32];
    assert Digits(1638, 2) == [25, 38];
    assert Digits(104893, 3) == [25, 38, 61];
    assert Digits(0x66_6F6F, 4) == [25, 38, 61, 47];
    assert Sextets([0x66]) == [25, 32];
    assert Sextets([0x66, 0x6F, 0x6F]) == [25, 38, 61, 47];
    hide Digits, Number, Sextets;
    assert Letters([25, 32]) == "Zg" && Letters([25, 38, 61, 47]) == "Zm9v";
  }
}
