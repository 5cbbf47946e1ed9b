/** The license as text: five base32 blocks (section 6 of RFC 4648) behind a prefix, and both decoders. */
module LicenseText {
  import opened ByteStrings
  import opened Blanks

  type quintet = n: int | 0 <= n < 32

  // ---- base32 blocks ----------------------------------------------------------------------------------------

  /** The last k base-32 digits of n, most significant first. */
  function Digits(n: nat, k: nat): (d: seq<quintet>)
    ensures |d| == k
  { if k == 0 then [] else Digits(n / 32, k - 1) + [n % 32] }

  function Value(d: seq<quintet>): nat { if d == [] then 0 else Value(d[..|d| - 1]) * 32 + d[|d| - 1] }

  function Pow32(k: nat): (p: nat)
    ensures p > 0
  { if k == 0 then 1 else 32 * Pow32(k - 1) }

  lemma {:induction false} ValueOfDigits(n: nat, k: nat)
    requires n < Pow32(k)
    ensures Value(Digits(n, k)) == n
  {
    if k > 0 {
      ValueOfDigits(n / 32, k - 1);
      assert Digits(n, k)[..k - 1] == Digits(n / 32, k - 1);
    }
  }

  lemma {:induction false} DigitsOfValue(d: seq<quintet>)
    ensures Digits(Value(d), |d|) == d && Value(d) < Pow32(|d|)
  {
    if d != [] {
      DigitsOfValue(d[..|d| - 1]);
      assert Value(d) % 32 == d[|d| - 1] && Value(d) / 32 == Value(d[..|d| - 1]);
      assert d == d[..|d| - 1] + [d[|d| - 1]];
    }
  }

  lemma BlockPowers()
    ensures Pow32(8) == Pow256(5) == 0x100_0000_0000
  {
    assert Pow32(4) == 0x10_0000;
    assert Pow256(3) == 0x100_0000;
  }

  function Letter(v: quintet): char { if v < 26 then ('A' as int + v) as char else ('2' as int + v - 26) as char }

  function Meaning(c: char): Option<quintet> {
    if 'A' <= c <= 'Z' then Some(c as int - 'A' as int)
    else if '2' <= c <= '7' then Some(c as int - '2' as int + 26) else None
  }

  lemma LetterMeans(v: quintet)
    ensures Meaning(Letter(v)) == Some(v) && Letter(v) != '-' && !Blank(Letter(v)) && Letter(v) != '='
  {}

  lemma MeaningIsLetter(c: char)
    ensures Meaning(c).Some? ==> Letter(Meaning(c).value) == c
  {}

  function Letters(d: seq<quintet>): (t: string)
    ensures |t| == |d|
  { seq(|d|, i requires 0 <= i < |d| => Letter(d[i])) }

  function Meanings(t: string): (d: Option<seq<quintet>>)
    ensures d.Some? ==> |d.value| == |t|
  {
    if t == [] then Some([])
    else
      var d :- Meanings(t[..|t| - 1]);
      var v :- Meaning(t[|t| - 1]);
      Some(d + [v])
  }

  lemma {:induction false} MeaningsOfLetters(d: seq<quintet>)
    ensures Meanings(Letters(d)) == Some(d)
  {
    hide Letter, Meaning;
    if d != [] {
      var n := |d| - 1;
      MeaningsOfLetters(d[..n]);
      assert Letters(d)[..n] == Letters(d[..n]);
      LetterMeans(d[n]);
      assert d == d[..n] + [d[n]];
    }
  }

  lemma {:induction false} LettersOfMeanings(t: string)
    ensures Meanings(t).Some? ==> Letters(Meanings(t).value) == t
  {
    hide Letter, Meaning;
    if t != [] {
      var n := |t| - 1;
      LettersOfMeanings(t[..n]);
      MeaningIsLetter(t[n]);
      assert t == t[..n] + [t[n]];
    }
  }

  /** Forty bits as eight letters. */
  function BlockText(b: Bytes): (t: string)
    requires |b| == 5
    ensures |t| == 8
  { Letters(Digits(Number(b), 8)) }

  function BlockBytes(t: string): (b: Option<Bytes>)
    ensures b.Some? ==> |t| == 8 && |b.value| == 5
  {
    if |t| != 8 then None
    else
      var d :- Meanings(t);
      Some(BigEndian(Value(d), 5))
  }

  lemma BlockRoundTrip(b: Bytes)
    requires |b| == 5
    ensures BlockBytes(BlockText(b)) == Some(b)
  {
    BlockPowers();
    NumberBound(b);
    MeaningsOfLetters(Digits(Number(b), 8));
    ValueOfDigits(Number(b), 8);
    BigEndianOfNumber(b);
    hide Letters, Meanings, Digits, Value, Number, BigEndian, Pow32, Pow256;
  }

  lemma TextRoundTrip(t: string)
    ensures BlockBytes(t).Some? ==> BlockText(BlockBytes(t).value) == t
  {
    hide Letters, Meanings, Digits, Value, Number, BigEndian, Pow32, Pow256;
    if BlockBytes(t).Some? {
      var d := Meanings(t).value;
      BlockPowers();
      DigitsOfValue(d);
      NumberOfBigEndian(Value(d), 5);
      LettersOfMeanings(t);
    }
  }

  // ---- splitting at the dashes ------------------------------------------------------------------------------

  function Split(t: string): (parts: seq<string>)
    ensures |parts| > 0
  {
    if t == [] then [[]]
    else
      var rest := Split(t[1..]);
      if t[0] == '-' then [[]] + rest else [[t[0]] + rest[0]] + rest[1..]
  }

  function Join(parts: seq<string>): string
    requires |parts| > 0
  { if |parts| == 1 then parts[0] else parts[0] + "-" + Join(parts[1..]) }

  lemma {:induction false} JoinSplit(t: string)
    ensures Join(Split(t)) == t
  {
    if t != [] {
      JoinSplit(t[1..]);
      var rest, parts := Split(t[1..]), Split(t);
      assert t == [t[0]] + t[1..];
      if t[0] == '-' {
        assert parts[1..] == rest;
      } else {
        assert parts[1..] == rest[1..];
        if |rest| > 1 { assert parts[0] + "-" + Join(rest[1..]) == [t[0]] + (rest[0] + "-" + Join(rest[1..])); }
      }
    }
  }

  lemma {:induction false} SplitPart(part: string, rest: string)
    requires '-' !in part
    ensures Split(part + "-" + rest) == [part] + Split(rest)
    ensures Split(part) == [part]
  {
    if part == [] {
      assert part + "-" + rest == "-" + rest && ("-" + rest)[1..] == rest;
    } else {
      SplitPart(part[1..], rest);
      assert (part + "-" + rest)[1..] == part[1..] + "-" + rest;
      assert part == [part[0]] + part[1..] && part[0] in part;
    }
  }

  lemma {:induction false} SplitJoin(parts: seq<string>)
    requires |parts| > 0 && forall i :: 0 <= i < |parts| ==> '-' !in parts[i]
    ensures Split(Join(parts)) == parts
  {
    if |parts| == 1 {
      SplitPart(parts[0], []);
    } else {
      SplitJoin(parts[1..]);
      SplitPart(parts[0], Join(parts[1..]));
    }
  }

  // ---- the license ------------------------------------------------------------------------------------------

  const PREFIX: string := "RG6"

  function BlockTexts(st: Bytes): (parts: seq<string>)
    requires |st| % 5 == 0
    ensures |parts| == |st| / 5
  { if st == [] then [] else [BlockText(st[..5])] + BlockTexts(st[5..]) }

  function BlocksBytes(parts: seq<string>): (b: Option<Bytes>)
    ensures b.Some? ==> |b.value| == 5 * |parts|
  {
    if parts == [] then Some([])
    else
      var b :- BlockBytes(parts[0]);
      var rest :- BlocksBytes(parts[1..]);
      Some(b + rest)
  }

  function Encoded(st: Bytes): string
    requires |st| == 25
  { Join([PREFIX] + BlockTexts(st)) }

  function PartsBytes(parts: seq<string>): (st: Option<Bytes>)
    ensures st.Some? ==> |st.value| == 25
  { if |parts| != 6 || parts[0] != PREFIX then None else BlocksBytes(parts[1..]) }

  /** The client skips blanks everywhere and checks the version. */
  function ClientDecoded(t: string): Option<Bytes> {
    var st :- PartsBytes(Split(Unblanked(t)));
    if st[0] != 6 then None else Some(st)
  }

  lemma {:induction false} BlocksRoundTrip(st: Bytes)
    requires |st| % 5 == 0
    ensures BlocksBytes(BlockTexts(st)) == Some(st)
  {
    hide BlockText, BlockBytes;
    if st != [] {
      BlockRoundTrip(st[..5]);
      BlocksRoundTrip(st[5..]);
      assert BlockTexts(st)[1..] == BlockTexts(st[5..]) && st == st[..5] + st[5..];
    }
  }

  lemma {:induction false} TextsRoundTrip(parts: seq<string>)
    ensures BlocksBytes(parts).Some? ==> BlockTexts(BlocksBytes(parts).value) == parts
  {
    hide BlockText, BlockBytes;
    if parts != [] && BlocksBytes(parts).Some? {
      TextRoundTrip(parts[0]);
      TextsRoundTrip(parts[1..]);
      var b, rest := BlockBytes(parts[0]).value, BlocksBytes(parts[1..]).value;
      assert (b + rest)[..5] == b && (b + rest)[5..] == rest;
      assert parts == [parts[0]] + parts[1..];
    }
  }

  /** Letters hold neither dashes nor blanks. */
  predicate Plain(t: string) { forall i :: 0 <= i < |t| ==> t[i] != '-' && !Blank(t[i]) }

  lemma {:induction false} BlockTextsPlain(st: Bytes)
    requires |st| % 5 == 0
    ensures forall i :: 0 <= i < |st| / 5 ==> Plain(BlockTexts(st)[i])
  {
    hide Digits, Number, Letter, Blank;
    if st != [] {
      BlockTextsPlain(st[5..]);
      var d := Digits(Number(st[..5]), 8);
      forall i | 0 <= i < 8 ensures Letters(d)[i] != '-' && !Blank(Letters(d)[i]) { LetterMeans(d[i]); }
      assert Plain(BlockText(st[..5]));
      forall i | 0 <= i < |st| / 5 ensures Plain(BlockTexts(st)[i]) {
        if i > 0 { assert BlockTexts(st)[i] == BlockTexts(st[5..])[i - 1]; }
      }
    }
  }

  lemma {:induction false} JoinPlain(parts: seq<string>)
    requires |parts| > 0 && forall i :: 0 <= i < |parts| ==> Plain(parts[i])
    ensures forall i :: 0 <= i < |Join(parts)| ==> !Blank(Join(parts)[i])
  {
    if |parts| > 1 {
      JoinPlain(parts[1..]);
      assert !Blank("-"[0]);
    }
  }

  lemma PartsOf(st: Bytes)
    requires |st| == 25
    ensures Split(Encoded(st)) == [PREFIX] + BlockTexts(st) && Unblanked(Encoded(st)) == Encoded(st)
  {
    var parts := [PREFIX] + BlockTexts(st);
    assert Plain(PREFIX);
    hide BlockTexts, Blank;
    BlockTextsPlain(st);
    forall i | 0 <= i < |parts| ensures Plain(parts[i]) && '-' !in parts[i] {
      if i > 0 { assert parts[i] == BlockTexts(st)[i - 1]; }
    }
    SplitJoin(parts);
    JoinPlain(parts);
    UnblankedPlain(Join(parts));
  }

  /** The client's decoder undoes the encoder on every structure of version 6, and refuses every other version. */
  lemma ClientUndoesEncode(st: Bytes)
    requires |st| == 25
    ensures ClientDecoded(Encoded(st)) == if st[0] == 6 then Some(st) else None
  {
    PartsOf(st);
    BlocksRoundTrip(st);
    hide BlockTexts, BlocksBytes, Split, Unblanked;
    assert ([PREFIX] + BlockTexts(st))[1..] == BlockTexts(st);
  }

  /** Encoding what the client accepted gives the text back, without its blanks. */
  lemma EncodeUndoesClient(t: string)
    requires ClientDecoded(t).Some?
    ensures Encoded(ClientDecoded(t).value) == Unblanked(t)
  {
    hide BlockTexts, BlocksBytes, Split, Unblanked, Join;
    var parts := Split(Unblanked(t));
    TextsRoundTrip(parts[1..]);
    JoinSplit(Unblanked(t));
    assert parts == [PREFIX] + parts[1..];
  }

  // ---- the server's decoder ---------------------------------------------------------------------------------

  function TrimPad(t: string): (r: string)
    ensures |r| <= |t|
  { if t != [] && t[|t| - 1] == '=' then TrimPad(t[..|t| - 1]) else t }

  /** The library's decoder on eight characters: '=' at the end stands for a shorter last quantum. */
  function LibraryBlock(t: string): (b: Option<Bytes>)
    requires |t| == 8
    ensures b.Some? ==> |b.value| <= 5
  {
    var d :- Meanings(TrimPad(t));
    var pad := 8 - |TrimPad(t)|;
    if pad == 0 then Some(BigEndian(Value(d), 5))
    else if pad == 1 || pad == 3 || pad == 4
        || pad == 6 then Some(BigEndian(Value(d) * Pow32(pad), 5)[..(43 - 5 * pad) / 8])
    else None
  }

  function ServerBlocks(parts: seq<string>): (b: Option<Bytes>)
    ensures b.Some? ==> |b.value| <= 5 * |parts|
  {
    if parts == [] then Some([])
    else if |parts[0]| != 8 then None
    else
      var b :- LibraryBlock(parts[0]);
      var rest :- ServerBlocks(parts[1..]);
      Some(b + rest)
  }

  /** What `strip` removes at both ends. */
  predicate White(c: char) {
    var n := c as int;
    9 <= n <= 13 || 28 <= n <= 32 || n == 0x85 || n == 0xA0 || n == 0x1680 || 0x2000 <= n <= 0x200A
    || n == 0x2028 || n == 0x2029 || n == 0x202F || n == 0x205F || n == 0x3000
  }

  function StripLeft(t: string): string { if t != [] && White(t[0]) then StripLeft(t[1..]) else t }

  function StripRight(t: string): string { if t != [] && White(t[|t| - 1]) then StripRight(t[..|t| - 1]) else t }

  function Stripped(t: string): string { StripRight(StripLeft(t)) }

  function ServerDecoded(t: string): (st: Option<Bytes>)
    ensures st.Some? ==> |st.value| == 25
  {
    var parts := Split(Stripped(t));
    if |parts| != 6 || parts[0] != PREFIX then None
    else
      var st :- ServerBlocks(parts[1..]);
      if |st| != 25 then None else Some(st)
  }

  lemma {:induction false} PaddedIsNoLetter(t: string)
    requires t != [] && t[|t| - 1] == '='
    ensures Meanings(t) == None
  {}

  /** The library yields five bytes exactly for eight letters, and then the client's. */
  lemma LibraryAgrees(t: string)
    requires |t| == 8
    ensures BlockBytes(t) == match LibraryBlock(t) case None => None case Some(b) => if |b| == 5 then Some(b) else None
  {
    if t[7] == '=' { PaddedIsNoLetter(t); }
    hide Value, BigEndian, Meaning, Meanings;
  }

  lemma {:induction false} BlocksAgree(parts: seq<string>)
    ensures BlocksBytes(parts) ==
            match ServerBlocks(parts) case None => None case Some(b) => if |b| == 5 * |parts| then Some(b) else None
  {
    hide BlockBytes, LibraryBlock;
    if parts != [] {
      BlocksAgree(parts[1..]);
      if |parts[0]| == 8 { LibraryAgrees(parts[0]); }
    }
  }

  lemma NothingStripped(t: string)
    requires forall i :: 0 <= i < |t| ==> !White(t[i])
    ensures Stripped(t) == t && Unblanked(t) == t
  {
    UnblankedPlain(t);
  }

  /** Every encoded structure, of whatever version, is decoded by the server. */
  lemma ServerUndoesEncode(st: Bytes)
    requires |st| == 25
    ensures ServerDecoded(Encoded(st)) == Some(st)
  {
    hide Split, BlocksBytes, ServerBlocks, BlockTexts, Stripped, Unblanked, White;
    PartsOf(st);
    EncodedIsDark(st);
    NothingStripped(Encoded(st));
    BlocksRoundTrip(st);
    BlocksAgree(BlockTexts(st));
    assert ([PREFIX] + BlockTexts(st))[1..] == BlockTexts(st);
  }

  predicate Dark(t: string) { forall i :: 0 <= i < |t| ==> !White(t[i]) }

  lemma LetterIsDark(v: quintet)
    ensures !White(Letter(v))
  {}

  lemma {:induction false} BlockTextsDark(st: Bytes)
    requires |st| % 5 == 0
    ensures forall i :: 0 <= i < |st| / 5 ==> Dark(BlockTexts(st)[i])
  {
    hide Digits, Number, Letter, White;
    if st != [] {
      BlockTextsDark(st[5..]);
      var d := Digits(Number(st[..5]), 8);
      forall i | 0 <= i < 8 ensures !White(Letters(d)[i]) { LetterIsDark(d[i]); }
      assert Dark(BlockText(st[..5]));
      forall i | 0 <= i < |st| / 5 ensures Dark(BlockTexts(st)[i]) {
        if i > 0 { assert BlockTexts(st)[i] == BlockTexts(st[5..])[i - 1]; }
      }
    }
  }

  lemma {:induction false} JoinDark(parts: seq<string>)
    requires |parts| > 0 && forall i :: 0 <= i < |parts| ==> Dark(parts[i])
    ensures Dark(Join(parts))
  {
    if |parts| > 1 {
      JoinDark(parts[1..]);
      assert !White("-"[0]);
    }
  }

  lemma EncodedIsDark(st: Bytes)
    requires |st| == 25
    ensures Dark(Encoded(st))
  {
    var parts := [PREFIX] + BlockTexts(st);
    assert Dark(PREFIX);
    hide BlockTexts, White;
    BlockTextsDark(st);
    forall i | 0 <= i < |parts| ensures Dark(parts[i]) {
      if i > 0 { assert parts[i] == BlockTexts(st)[i - 1]; }
    }
    JoinDark(parts);
  }

  // ---- when the two decoders agree --------------------------------------------------------------------------

  function VersionSix(st: Option<Bytes>): Option<Bytes>
    requires st.Some? ==> st.value != []
  { if st.Some? && st.value[0] == 6 then st else None }

  /** What a text without any white space to skip decodes to. */
  function Exact(u: string): (st: Option<Bytes>)
    ensures st.Some? ==> |st.value| == 25
  { PartsBytes(Split(u)) }

  lemma BothByExact(t: string)
    ensures ServerDecoded(t) == Exact(Stripped(t)) && ClientDecoded(t) == VersionSix(Exact(Unblanked(t)))
  {
    hide Split, BlocksBytes, ServerBlocks, Stripped, Unblanked;
    BlocksAgree(Split(Stripped(t))[1..]);
  }

  lemma ExactIsEncoding(u: string, st: Bytes)
    ensures Exact(u) == Some(st) <==> |st| == 25 && Encoded(st) == u
  {
    hide Split, BlocksBytes, BlockTexts, Join;
    if Exact(u) == Some(st) {
      var parts := Split(u);
      TextsRoundTrip(parts[1..]);
      JoinSplit(u);
      assert parts == [PREFIX] + parts[1..];
    }
    if |st| == 25 && Encoded(st) == u {
      PartsOf(st);
      BlocksRoundTrip(st);
      assert ([PREFIX] + BlockTexts(st))[1..] == BlockTexts(st);
    }
  }

  /** The server accepts exactly the texts that are an encoding between white space. */
  lemma ServerAcceptsExactly(t: string, st: Bytes)
    ensures ServerDecoded(t) == Some(st) <==> |st| == 25 && Stripped(t) == Encoded(st)
  {
    hide ServerDecoded, ClientDecoded, Exact, Stripped, Unblanked, Encoded;
    BothByExact(t);
    ExactIsEncoding(Stripped(t), st);
  }

  /** The client accepts exactly the texts that are an encoding of version 6 with blanks anywhere in it. */
  lemma ClientAcceptsExactly(t: string, st: Bytes)
    ensures ClientDecoded(t) == Some(st) <==> |st| == 25 && st[0] == 6 && Unblanked(t) == Encoded(st)
  {
    hide ServerDecoded, ClientDecoded, Exact, Stripped, Unblanked, Encoded;
    BothByExact(t);
    ExactIsEncoding(Unblanked(t), st);
    if Exact(Unblanked(t)).Some? { ExactIsEncoding(Unblanked(t), Exact(Unblanked(t)).value); }
  }

  ghost predicate EncodesSix(u: string) { exists st: Bytes :: |st| == 25 && st[0] == 6 && Encoded(st) == u }

  lemma EncodesSixIs(u: string)
    ensures EncodesSix(u) <==> VersionSix(Exact(u)).Some?
  {
    hide Exact, Encoded;
    if Exact(u).Some? { ExactIsEncoding(u, Exact(u).value); }
    forall st: Bytes | |st| == 25 && st[0] == 6
        && Encoded(st) == u ensures Exact(u) == Some(st) { ExactIsEncoding(u, st); }
  }

  /**
   On every text: up to the client's version check the decoders differ if and only if stripping the ends and
   dropping the blanks leave different texts and one of the two is an encoding of version 6.
   */
  lemma DecodersDifferExactly(t: string)
    ensures ClientDecoded(t) != VersionSix(ServerDecoded(t)) <==>
            Stripped(t) != Unblanked(t) && (EncodesSix(Stripped(t)) || EncodesSix(Unblanked(t)))
  {
    hide ServerDecoded, ClientDecoded, Exact, Stripped, Unblanked, EncodesSix, Encoded;
    BothByExact(t);
    EncodesSixIs(Stripped(t));
    EncodesSixIs(Unblanked(t));
    var server, client := Exact(Stripped(t)), Exact(Unblanked(t));
    if server.Some? && server == client {
      ExactIsEncoding(Stripped(t), server.value);
      ExactIsEncoding(Unblanked(t), client.value);
    }
  }

  /** Stripping takes white space off both ends and nothing else. */
  lemma {:induction false} StripSplits(t: string) returns (a: string, b: string)
    ensures t == a + Stripped(t) + b
    ensures (forall i :: 0 <= i < |a| ==> White(a[i])) && (forall i :: 0 <= i < |b| ==> White(b[i]))
    decreases |t|
  {
    if t != [] && White(t[0]) {
      var a';
      a', b := StripSplits(t[1..]);
      assert Stripped(t) == Stripped(t[1..]);
      hide StripLeft, StripRight, White;
      a := [t[0]] + a';
      assert t == [t[0]] + t[1..] && [t[0]] + (a' + Stripped(t) + b) == a + Stripped(t) + b;
    } else {
      a := [];
      b := StripRightSplits(t);
    }
  }

  lemma {:induction false} StripRightSplits(t: string) returns (b: string)
    ensures t == StripRight(t) + b && forall i :: 0 <= i < |b| ==> White(b[i])
  {
    if t != [] && White(t[|t| - 1]) {
      b := StripRightSplits(t[..|t| - 1]);
      b := b + [t[|t| - 1]];
      assert t == t[..|t| - 1] + [t[|t| - 1]];
    } else {
      b := [];
    }
  }

  lemma {:induction false} UnblankedBlanks(t: string)
    requires forall i :: 0 <= i < |t| ==> Blank(t[i])
    ensures Unblanked(t) == []
  {
    hide Blank;
    if t != [] { UnblankedBlanks(t[1..]); }
  }

  /** When every white character of the text is a blank, the ends do not matter to the client. */
  lemma EndsDoNotMatter(t: string)
    requires forall i :: 0 <= i < |t| && White(t[i]) ==> Blank(t[i])
    ensures Unblanked(t) == Unblanked(Stripped(t))
  {
    hide White, Blank, Stripped, Unblanked;
    var a, b := StripSplits(t);
    assert forall i :: 0 <= i < |a| ==> a[i] == t[i];
    assert forall i :: 0 <= i < |b| ==> b[i] == t[|a| + |Stripped(t)| + i];
    UnblankedBlanks(a);
    UnblankedBlanks(b);
    UnblankedConcat(a + Stripped(t), b);
    UnblankedConcat(a, Stripped(t));
  }

  lemma EncodingIsDark(u: string)
    requires EncodesSix(u)
    ensures Dark(u)
  {
    hide Encoded, White;
    var st: Bytes :| |st| == 25 && st[0] == 6 && Encoded(st) == u;
    EncodedIsDark(st);
  }

  lemma BlankIsWhite(c: char)
    ensures Blank(c) ==> White(c)
  {}

  /** So they agree on every text without white space. */
  lemma DecodersAgree(t: string)
    requires forall i :: 0 <= i < |t| ==> !White(t[i])
    ensures ClientDecoded(t) == VersionSix(ServerDecoded(t))
  {
    hide ServerDecoded, ClientDecoded, Stripped, Unblanked, EncodesSix, White;
    NothingStripped(t);
    DecodersDifferExactly(t);
  }

  /** A text the client accepts: the server refuses it exactly when a blank stands inside the encoding. */
  lemma BlankInside(t: string)
    requires EncodesSix(Unblanked(t))
    ensures Stripped(t) != Unblanked(t) <==> exists c :: c in Stripped(t) && Blank(c)
  {
    EncodingIsDark(Unblanked(t));
    hide EncodesSix, White, Blank, Stripped, Unblanked;
    forall i | 0 <= i < |t| && White(t[i]) ensures Blank(t[i]) { UnblankedHolds(t, t[i]); }
    EndsDoNotMatter(t);
    if c :| c in Stripped(t) && Blank(c) {
      UnblankedHolds(t, c);
    } else {
      UnblankedPlain(Stripped(t));
    }
  }

  /** A text the server accepts: the client refuses it exactly when an end holds white space that is no blank. */
  lemma ForeignWhite(t: string)
    requires EncodesSix(Stripped(t))
    ensures Stripped(t) != Unblanked(t) <==> exists c :: c in t && White(c) && !Blank(c)
  {
    EncodingIsDark(Stripped(t));
    hide EncodesSix, White, Blank, Stripped, Unblanked;
    if c :| c in t && White(c) && !Blank(c) {
      UnblankedHolds(t, c);
    } else {
      EndsDoNotMatter(t);
      forall i | 0 <= i < |Stripped(t)| ensures !Blank(Stripped(t)[i]) { BlankIsWhite(Stripped(t)[i]); }
      UnblankedPlain(Stripped(t));
    }
  }

  // ---- the implementations ----------------------------------------------------------------------------------

  /** Eight letters into a 40-bit accumulator, and out again byte by byte. */
  method DecodeBlock(t: string) returns (b: Option<Bytes>)
    ensures b == BlockBytes(t)
  {
    hide Meaning, BigEndian;
    if |t| != 8 { return None; }
    var acc: nat := 0;
    ghost var d: seq<quintet> := [];
    for i := 0 to 8
      invariant Meanings(t[..i]) == Some(d) && acc == Value(d)
    {
      assert t[..i + 1][..i] == t[..i];
      var v := Meaning(t[i]);
      if v.None? {
        NoMeaning(t, i);
        return None;
      }
      acc := 32 * acc + v.value;
      d := d + [v.value];
      assert d[..i] == d[..|d| - 1];
    }
    assert t[..8] == t;
    b := Some(BigEndian(acc, 5));
  }

  lemma {:induction false} NoMeaning(t: string, i: nat)
    requires i < |t| && Meaning(t[i]).None?
    ensures Meanings(t).None?
  {
    if i < |t| - 1 { NoMeaning(t[..|t| - 1], i); }
  }

  method EncodeLicense(st: Bytes) returns (t: string)
    requires |st| == 25
    ensures t == Encoded(st)
  {
    hide BlockText;
    var parts: seq<string> := [];
    var i := 0;
    while i < 25
      invariant 0 <= i <= 25 && i % 5 == 0 && parts + BlockTexts(st[i..]) == BlockTexts(st)
      decreases 25 - i
    {
      assert st[i..][..5] == st[i..i + 5] && st[i..][5..] == st[i + 5..];
      parts := parts + [BlockText(st[i..i + 5])];
      i := i + 5;
    }
    assert parts == BlockTexts(st);
    var blocks := JoinAll(parts);
    t := PREFIX + "-" + blocks;
    assert ([PREFIX] + parts)[1..] == parts;
  }

  method JoinAll(parts: seq<string>) returns (t: string)
    requires |parts| > 0
    ensures t == Join(parts)
  {
    t := parts[|parts| - 1];
    var i := |parts| - 1;
    assert parts[i..] == [t];
    while i > 0
      invariant 0 <= i < |parts| && t == Join(parts[i..])
    {
      i := i - 1;
      assert parts[i..][1..] == parts[i + 1..];
      t := parts[i] + "-" + t;
    }
    assert parts[0..] == parts;
  }

  /** Finished parts and the one being read, in front of what the rest of the text splits into. */
  function Carried(parts: seq<string>, cur: string, rest: seq<string>): seq<string>
    requires |rest| > 0
  { parts + [cur + rest[0]] + rest[1..] }

  lemma SplitNext(t: string)
    requires t != []
    ensures var rest := Split(Unblanked(t[1..]));
            Split(Unblanked(t)) ==
            if Blank(t[0]) then rest else if t[0] == '-' then [[]] + rest else [[t[0]] + rest[0]] + rest[1..]
  {
    hide Blank;
    if Blank(t[0]) {
      assert Unblanked(t) == Unblanked(t[1..]);
    } else {
      assert Unblanked(t) == [t[0]] + Unblanked(t[1..]) && Unblanked(t)[1..] == Unblanked(t[1..]);
    }
  }

  lemma CarryOn(parts: seq<string>, cur: string, rest: seq<string>, c: char)
    requires |rest| > 0
    ensures Carried(parts, cur, [[]] + rest) == Carried(parts + [cur], [], rest)
    ensures Carried(parts, cur, [[c] + rest[0]] + rest[1..]) == Carried(parts, cur + [c], rest)
  {
    assert ([[]] + rest)[1..] == rest && cur + [] == cur && [] + rest[0] == rest[0];
    assert rest == [rest[0]] + rest[1..];
    assert ([[c] + rest[0]] + rest[1..])[1..] == rest[1..];
    assert cur + ([c] + rest[0]) == (cur + [c]) + rest[0];
  }

  /** The client's one pass over the characters, with the current part in `cur`. */
  method SplitClient(t: string) returns (parts: seq<string>)
    ensures parts == Split(Unblanked(t))
  {
    hide Blank, Carried, Unblanked, Split;
    parts := [];
    var cur: string := [];
    CarriedEnds(t);
    for i := 0 to |t|
      invariant Split(Unblanked(t)) == Carried(parts, cur, Split(Unblanked(t[i..])))
    {
      var c := t[i];
      assert t[i..][0] == c && t[i..][1..] == t[i + 1..];
      SplitNext(t[i..]);
      CarryOn(parts, cur, Split(Unblanked(t[i + 1..])), c);
      if Blank(c) { continue; }
      if c == '-' {
        parts := parts + [cur];
        cur := [];
      } else {
        cur := cur + [c];
      }
    }
    CarriedLast(parts, cur, t[|t|..]);
    parts := parts + [cur];
  }

  lemma CarriedEnds(t: string)
    ensures Split(Unblanked(t)) == Carried([], [], Split(Unblanked(t[0..])))
  {
    assert t[0..] == t;
    var r := Split(Unblanked(t));
    assert [] + r[0] == r[0] && r == [r[0]] + r[1..];
  }

  lemma CarriedLast(parts: seq<string>, cur: string, t: string)
    requires t == []
    ensures Carried(parts, cur, Split(Unblanked(t))) == parts + [cur]
  {
    var r := Split(Unblanked(t));
    assert r == [[]];
    assert r[0] == [] && cur + r[0] == cur;
  }

  method DecodeClient(t: string) returns (r: Option<Bytes>)
    ensures r == ClientDecoded(t)
  {
    hide Split, Unblanked, BlockBytes;
    var parts := SplitClient(t);
    if |parts| != 6 || parts[0] != PREFIX { return None; }
    var st: Bytes := [];
    PrependNothing(BlocksBytes(parts[1..]));
    for i := 1 to 6
      invariant |st| == 5 * (i - 1)
      invariant BlocksBytes(parts[1..]) == Prepended(st, BlocksBytes(parts[i..]))
    {
      assert parts[i..][0] == parts[i] && parts[i..][1..] == parts[i + 1..];
      var b := DecodeBlock(parts[i]);
      if b.None? { return None; }
      PrependTwice(st, b.value, BlocksBytes(parts[i + 1..]));
      st := st + b.value;
    }
    assert parts[6..] == [] && st + [] == st;
    if st[0] != 6 { return None; }
    r := Some(st);
  }

  method DecodeServer(t: string) returns (r: Option<Bytes>)
    ensures r == ServerDecoded(t)
  {
    hide Split, LibraryBlock;
    var parts := Split(Stripped(t));
    if |parts| != 6 || parts[0] != PREFIX { return None; }
    var st: Bytes := [];
    PrependNothing(ServerBlocks(parts[1..]));
    for i := 1 to 6
      invariant ServerBlocks(parts[1..]) == Prepended(st, ServerBlocks(parts[i..]))
    {
      assert parts[i..][0] == parts[i] && parts[i..][1..] == parts[i + 1..];
      if |parts[i]| != 8 { return None; }
      var b := LibraryBlock(parts[i]);
      if b.None? { return None; }
      PrependTwice(st, b.value, ServerBlocks(parts[i + 1..]));
      st := st + b.value;
    }
    assert parts[6..] == [] && st + [] == st;
    if |st| != 25 { return None; }
    r := Some(st);
  }

  function Prepended(st: Bytes, rest: Option<Bytes>): Option<Bytes> {
    match rest case None => None case Some(b) => Some(st + b)
  }

  lemma PrependNothing(rest: Option<Bytes>)
    ensures Prepended([], rest) == rest
  {
    if rest.Some? { assert [] + rest.value == rest.value; }
  }

  lemma PrependTwice(st: Bytes, b: Bytes, rest: Option<Bytes>)
    ensures Prepended(st, Prepended(b, rest)) == Prepended(st + b, rest)
  {
    if rest.Some? { assert st + (b + rest.value) == st + b + rest.value; }
  }

  // ---- the outer form ---------------------------------------------------------------------------------------

  /** The base32 alphabet of RFC 4648, and the vector "fooba" of its section 10. */
  lemma AlphabetIs(v: quintet)
    ensures Letter(0) == 'A' && Letter(26) == '2'
    ensures v < 31 && v != 25 ==> Letter(v + 1) as int == Letter(v) as int + 1
    ensures BlockText([0x66, 0x6F, 0x6F, 0x62, 0x61]) == "MZXW6YTB"
  {
    BlockVector();
  }

  lemma NumberGrows(b: Bytes, x: byte)
    ensures Number(b + [x]) == Number(b) * 256 + x
  {
    assert (b + [x])[..|b|] == b;
  }

  lemma BlockVector()
    ensures BlockText([0x66, 0x6F, 0x6F, 0x62, 0x61]) == "MZXW6YTB"
  {
    assert Number([0x66]) == 0x66;
    NumberGrows([0x66], 0x6F);
    NumberGrows([0x66] + [0x6F], 0x6F);
    NumberGrows([0x66] + [0x6F] + [0x6F], 0x62);
    NumberGrows([0x66] + [0x6F] + [0x6F] + [0x62], 0x61);
    var block: Bytes := [0x66, 0x6F, 0x6F, 0x62, 0x61];
    assert [0x66] + [0x6F] + [0x6F] + [0x62] + [0x61] == block && Number(block) == 0x66_6F6F_6261;
    assert Digits(0xC, 1) == [12];
    assert Digits(0x199, 2) == [12, 25];
    assert Digits(0x3337, 3) == [12, 25, 23];
    assert Digits(0x666F6, 4) == [12, 25, 23, 22];
    assert Digits(0xCCDEDE, 5) == [12, 25, 23, 22, 30];
    assert Digits(0x199BDBD8, 6) == [12, 25, 23, 22, 30, 24];
    assert Digits(0x3337B7B13, 7) == [12, 25, 23, 22, 30, 24, 19];
    assert Digits(0x666F6F6261, 8) == [12, 25, 23, 22, 30, 24, 19, 1];
    hide Digits, Number;
    assert Letters([12, 25, 23, 22, 30, 24, 19, 1]) == "MZXW6YTB";
  }

  /** A license text: the product name and five blocks of eight letters, with dashes between them. */
  lemma TextLayout(st: Bytes)
    requires |st| == 25
    ensures Encoded(st) ==
            "RG6" + "-" + (BlockText(st[0..5]) + "-" + (BlockText(st[5..10]) + "-" + (BlockText(st[10..15]) + "-"
            + (BlockText(st[15..20]) + "-" + BlockText(st[20..25])))))
  {
    hide BlockText;
    var a, b, c, d, e := BlockText(st[0..5]), BlockText(st[5..10]), BlockText(st[10..15]), BlockText(st[15..20]),
        BlockText(st[20..25]);
    assert st[5..][..5] == st[5..10] && st[5..][5..] == st[10..];
    assert st[10..][..5] == st[10..15] && st[10..][5..] == st[15..];
    assert st[15..][..5] == st[15..20] && st[15..][5..] == st[20..];
    assert st[20..][..5] == st[20..25] && st[20..][5..] == [];
    assert BlockTexts(st[20..]) == [e];
    assert BlockTexts(st[15..]) == [d, e];
    assert BlockTexts(st[10..]) == [c, d, e];
    assert BlockTexts(st) == [a, b, c, d, e];
    assert [PREFIX] + BlockTexts(st) == [PREFIX, a, b, c, d, e];
    JoinSix(PREFIX, a, b, c, d, e);
  }

  lemma JoinCons(a: string, rest: seq<string>)
    requires rest != []
    ensures Join([a] + rest) == a + "-" + Join(rest)
  {
    assert ([a] + rest)[1..] == rest;
  }

  lemma JoinSix(p: string, a: string, b: string, c: string, d: string, e: string)
    ensures Join([p, a, b, c, d, e]) == p + "-" + (a + "-" + (b + "-" + (c + "-" + (d + "-" + e))))
  {
    assert Join([e]) == e;
    hide Join;
    JoinCons(d, [e]);
    JoinCons(c, [d, e]);
    JoinCons(b, [c, d, e]);
    JoinCons(a, [b, c, d, e]);
    JoinCons(p, [a, b, c, d, e]);
    assert [d] + [e] == [d, e] && [c] + [d, e] == [c, d, e] && [b] + [c, d, e] == [b, c, d, e];
    assert [a] + [b, c, d, e] == [a, b, c, d, e] && [p] + [a, b, c, d, e] == [p, a, b, c, d, e];
  }
}
