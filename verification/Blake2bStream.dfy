/** The client's streaming BLAKE2b against the block definition in sections 3.2 and 3.3 of RFC 7693. */
module Blake2bStream {
  import opened ByteStrings
  import opened Crypto
  import Words
  import opened Blake2bRounds

  // ---- the definition ---------------------------------------------------------------------------------------

  function IV(): (r: seq<Lane>)
    ensures |r| == 8
  {
    [Lane(0x6a09e667f3bcc908), Lane(0xbb67ae8584caa73b), Lane(0x3c6ef372fe94f82b), Lane(0xa54ff53a5f1d36f1),
     Lane(0x510e527fade682d1), Lane(0x9b05688c2b3e6c1f), Lane(0x1f83d9abfb41bd6b), Lane(0x5be0cd19137e2179)]
  }

  const TWO64: nat := 0x1_0000_0000_0000_0000
  const TWO128: nat := 0x1_0000_0000_0000_0000_0000_0000_0000_0000
  const BLOCK: nat := 128

  /** A word below 2^64 as a lane. */
  function LaneOf(n: nat): Lane { Lane((n % 0x1_0000_0000_0000_0000) as Words.Word) }

  function ShiftIn(a: Lane, b: byte): Lane { Lane((a.w << 8) | (b as Words.Word)) }

  /** A little-endian word. */
  function LittleEndian(b: Bytes): Lane { if b == [] then LaneOf(0) else ShiftIn(LittleEndian(b[1..]), b[0]) }

  function BlockWords(b: Bytes): (m: seq<Lane>)
    requires |b| == BLOCK
    ensures |m| == 16
  { seq(16, i requires 0 <= i < 16 => LittleEndian(b[8 * i..8 * i + 8])) }

  function Flipped(a: Lane): Lane { Lane(!a.w) }

  /** The initial state of a compression: t is the 128-bit byte counter. */
  function Loaded(h: seq<Lane>, t: nat, last: bool): (v: seq<Lane>)
    requires |h| == 8
    ensures |v| == 16
  {
    var v := IV()[4 := Xor(IV()[4], LaneOf(t))][5 := Xor(IV()[5], LaneOf(t / TWO64))];
    h + if last then v[6 := Flipped(v[6])] else v
  }

  function Folded(h: seq<Lane>, v: seq<Lane>): (r: seq<Lane>)
    requires |h| == 8 && |v| == 16
    ensures |r| == 8
  { seq(8, i requires 0 <= i < 8 => Xor(h[i], Xor(v[i], v[8 + i]))) }

  /** The compression function F. */
  function F(h: seq<Lane>, block: Bytes, t: nat, last: bool): (r: seq<Lane>)
    requires |h| == 8 && |block| == BLOCK
    ensures |r| == 8
  { Folded(h, Steps(Loaded(h, t, last), BlockWords(block), STEPS)) }

  function ZeroPadded(b: Bytes): (r: Bytes)
    requires |b| <= BLOCK
    ensures |r| == BLOCK
  { b + Zeros(BLOCK - |b|) }

  /** The key fills a block of its own. */
  function Message(key: Bytes, data: Bytes): Bytes
    requires |key| <= 64
  { if key == [] then data else ZeroPadded(key) + data }

  /** dd: at least one block. */
  function BlockCount(all: Bytes): nat { if all == [] then 1 else (|all| + 127) / 128 }

  function BlockAt(all: Bytes, i: nat): (b: Bytes)
    requires i < BlockCount(all)
    ensures |b| == BLOCK
  { ZeroPadded(all[128 * i..if 128 * i + 128 <= |all| then 128 * i + 128 else |all|]) }

  function Parameters(outLen: nat, keyLen: nat): (h: seq<Lane>)
    ensures |h| == 8
  { IV()[0 := Xor(Xor(Xor(IV()[0], Lane(0x0101_0000)), LaneOf(256 * keyLen)), LaneOf(outLen))] }

  /** The state after the first n blocks, none of them the last. */
  function Chained(h: seq<Lane>, all: Bytes, n: nat): (r: seq<Lane>)
    requires |h| == 8 && 128 * n <= |all|
    ensures |r| == 8
  { if n == 0 then h else F(Chained(h, all, n - 1), all[128 * (n - 1)..128 * n], 128 * n, false) }

  function ShiftedOut(w: Words.Word): Words.Word { w >> 8 }

  function LowByte(w: Words.Word): byte { (w & 0xFF) as int }

  /** Byte k of a word, the least significant first. */
  function ByteOf(w: Words.Word, k: nat): byte { if k == 0 then LowByte(w) else ByteOf(ShiftedOut(w), k - 1) }

  function Output(h: seq<Lane>, outLen: nat): (r: Bytes)
    requires |h| == 8 && outLen <= 64
    ensures |r| == outLen
  { seq(outLen, i requires 0 <= i < outLen => ByteOf(h[i / 8].w, i % 8)) }

  /** All blocks but the last, then the last one with the total byte count. */
  function Digest(h: seq<Lane>, all: Bytes, outLen: nat): (r: Bytes)
    requires |h| == 8 && outLen <= 64
    ensures |r| == outLen
  {
    var dd := BlockCount(all);
    Output(F(Chained(h, all, dd - 1), BlockAt(all, dd - 1), |all|, true), outLen)
  }

  /** BLAKE2b of a key and data. */
  function Blake2bHash(data: Bytes, key: Bytes, outLen: nat): (r: Bytes)
    requires |key| <= 64 && outLen <= 64
    ensures |r| == outLen
  { Digest(Parameters(outLen, |key|), Message(key, data), outLen) }

  lemma {:induction false} ChainedPrefix(h: seq<Lane>, all: Bytes, more: Bytes, n: nat)
    requires |h| == 8 && 128 * n <= |all|
    ensures Chained(h, all + more, n) == Chained(h, all, n)
  {
    hide F;
    if n > 0 {
      ChainedPrefix(h, all, more, n - 1);
      assert (all + more)[128 * (n - 1)..128 * n] == all[128 * (n - 1)..128 * n];
    }
  }

  // ---- the two-word counter ---------------------------------------------------------------------------------

  predicate Counts(t0: nat, t1: nat, total: nat) { t0 == total % TWO64 && t1 == (total / TWO64) % TWO64 }

  lemma CounterIs(t0: nat, t1: nat, total: nat)
    ensures Counts(t0, t1, total) ==> t1 * TWO64 + t0 == total % TWO128
  {}

  /** `t[0] += n; if (t[0] < n) t[1]++` in 64-bit arithmetic. */
  lemma CounterAdvances(t0: nat, t1: nat, total: nat, n: nat)
    requires Counts(t0, t1, total) && n < TWO64
    ensures var low := (t0 + n) % TWO64;
            Counts(low, if low < n then (t1 + 1) % TWO64 else t1, total + n)
  {
    var q, r := total / TWO64, total % TWO64;
    if r + n < TWO64 {
      assert (total + n) / TWO64 == q && (total + n) % TWO64 == r + n;
    } else {
      assert (total + n) / TWO64 == q + 1 && (total + n) % TWO64 == r + n - TWO64;
    }
  }

  lemma CountedLanes(t0: nat, t1: nat, total: nat)
    requires Counts(t0, t1, total)
    ensures LaneOf(t0) == LaneOf(total) && LaneOf(t1) == LaneOf(total / TWO64)
  {
    assert t0 % TWO64 == total % TWO64 && t1 % TWO64 == (total / TWO64) % TWO64;
  }

  // ---- the implementation -----------------------------------------------------------------------------------

  /** The initial state as updates of h | IV. */
  lemma LoadedIs(h: seq<Lane>, t: nat, last: bool)
    requires |h| == 8
    ensures var s := h + IV();
            var u := s[12 := Xor(s[12], LaneOf(t))][13 := Xor(s[13], LaneOf(t / TWO64))];
            Loaded(h, t, last) == if last then u[14 := Flipped(s[14])] else u
  {
    hide IV, Xor, LaneOf, Flipped;
    var iv := IV();
    var s := h + iv;
    var x, y := Xor(iv[4], LaneOf(t)), Xor(iv[5], LaneOf(t / TWO64));
    assert s[12 := x][13 := y] == h + iv[4 := x][5 := y];
    assert s[12 := x][13 := y][14 := Flipped(iv[6])] == h + iv[4 := x][5 := y][6 := Flipped(iv[6])];
  }

  /** The eight statements of G on the state array. */
  method MixLanes(v: array<Lane>, a: nat, b: nat, c: nat, d: nat, x: Lane, y: Lane)
    requires v.Length == 16 && a < 4 <= b < 8 <= c < 12 <= d < 16
    modifies v
    ensures v[..] == old(var q := G(Quad(v[a], v[b], v[c], v[d]), x, y); v[..][a := q.a][b := q.b][c := q.c][d := q.d])
  {
    hide Add, Xor, Ror;
    v[a] := Add(Add(v[a], v[b]), x);
    v[d] := Ror(Xor(v[d], v[a]), 32);
    v[c] := Add(v[c], v[d]);
    v[b] := Ror(Xor(v[b], v[c]), 24);
    v[a] := Add(Add(v[a], v[b]), y);
    v[d] := Ror(Xor(v[d], v[a]), 16);
    v[c] := Add(v[c], v[d]);
    v[b] := Ror(Xor(v[b], v[c]), 63);
  }

  lemma StepsZero(v: seq<Lane>, m: seq<Lane>)
    requires |v| == 16 && |m| == 16
    ensures Steps(v, m, 0) == v
  {}

  lemma StepsNext(v: seq<Lane>, m: seq<Lane>, r: nat, j: nat)
    requires |v| == 16 && |m| == 16 && j < 8
    ensures Steps(v, m, 8 * r + j + 1) == StepAt(Steps(v, m, 8 * r + j), j, m[Sigma(r, 2 * j)], m[Sigma(r, 2 * j + 1)])
  {
    hide Steps, StepAt, WordX, WordY, Sigma;
    RoundAndStep(r, j);
    WordsOf(m, 8 * r + j);
    StepsUnfold(v, m, 8 * r + j);
  }

  lemma RoundAndStep(r: nat, j: nat)
    requires j < 8
    ensures (8 * r + j) / 8 == r && (8 * r + j) % 8 == j
  {}

  lemma WordsOf(m: seq<Lane>, n: nat)
    requires |m| == 16
    ensures WordX(m, n) == m[Sigma(n / 8, 2 * (n % 8))] && WordY(m, n) == m[Sigma(n / 8, 2 * (n % 8) + 1)]
  {}

  lemma StepsUnfold(v: seq<Lane>, m: seq<Lane>, n: nat)
    requires |v| == 16 && |m| == 16
    ensures Steps(v, m, n + 1) == StepAt(Steps(v, m, n), n % 8, WordX(m, n), WordY(m, n))
  {
    hide StepAt, WordX, WordY;
  }

  /** Step j of round r; the lanes and the message words are those of the listing. */
  method Mix(v: array<Lane>, a: nat, b: nat, c: nat, d: nat, x: Lane, y: Lane, ghost v0: seq<Lane>, ghost m: seq<Lane>,
             ghost r: nat, ghost j: nat)
    requires v.Length == 16 && |v0| == 16 && |m| == 16 && j < 8
    requires a == j % 4 && b == LaneB(j) && c == LaneC(j) && d == LaneD(j)
    requires x == m[Sigma(r, 2 * j)] && y == m[Sigma(r, 2 * j + 1)]
    requires v[..] == Steps(v0, m, 8 * r + j)
    modifies v
    ensures v[..] == Steps(v0, m, 8 * r + j + 1)
  {
    hide Steps, G, Sigma;
    StepsNext(v0, m, r, j);
    MixLanes(v, a, b, c, d, x, y);
  }

  /** One of the twelve rounds. */
  method Round(v: array<Lane>, m: seq<Lane>, r: nat, ghost v0: seq<Lane>)
    requires v.Length == 16 && |m| == 16 && |v0| == 16 && v[..] == Steps(v0, m, 8 * r)
    modifies v
    ensures v[..] == Steps(v0, m, 8 * (r + 1))
  {
    hide Steps, Sigma;
    Mix(v, 0, 4, 8, 12, m[Sigma(r, 0)], m[Sigma(r, 1)], v0, m, r, 0);
    Mix(v, 1, 5, 9, 13, m[Sigma(r, 2)], m[Sigma(r, 3)], v0, m, r, 1);
    Mix(v, 2, 6, 10, 14, m[Sigma(r, 4)], m[Sigma(r, 5)], v0, m, r, 2);
    Mix(v, 3, 7, 11, 15, m[Sigma(r, 6)], m[Sigma(r, 7)], v0, m, r, 3);
    Mix(v, 0, 5, 10, 15, m[Sigma(r, 8)], m[Sigma(r, 9)], v0, m, r, 4);
    Mix(v, 1, 6, 11, 12, m[Sigma(r, 10)], m[Sigma(r, 11)], v0, m, r, 5);
    Mix(v, 2, 7, 8, 13, m[Sigma(r, 12)], m[Sigma(r, 13)], v0, m, r, 6);
    Mix(v, 3, 4, 9, 14, m[Sigma(r, 14)], m[Sigma(r, 15)], v0, m, r, 7);
  }

  /** The little-endian load of one message word. */
  method LoadWord(block: Bytes, i: nat) returns (w: Lane)
    requires |block| == BLOCK && i < 16
    ensures w == LittleEndian(block[8 * i..8 * i + 8])
  {
    hide ShiftIn, LaneOf;
    w := LaneOf(0);
    var b := 8;
    while b > 0
      invariant 0 <= b <= 8 && w == LittleEndian(block[8 * i + b..8 * i + 8])
    {
      b := b - 1;
      assert block[8 * i + b..8 * i + 8][1..] == block[8 * i + b + 1..8 * i + 8];
      w := ShiftIn(w, block[8 * i + b]);
    }
  }

  method LoadWords(block: Bytes) returns (m: seq<Lane>)
    requires |block| == BLOCK
    ensures m == BlockWords(block)
  {
    hide LittleEndian;
    m := [];
    for i := 0 to 16
      invariant |m| == i && forall k :: 0 <= k < i ==> m[k] == LittleEndian(block[8 * k..8 * k + 8])
    {
      var w := LoadWord(block, i);
      m := m + [w];
    }
  }

  class Blake2b {
    const h: array<Lane>
    const buf: array<byte>
    const outLen: nat
    var t0: nat
    var t1: nat
    var buflen: nat
    /** Every byte handed to `Update`, and how many whole blocks of it are compressed. */
    ghost var fed: Bytes
    ghost var blocks: nat
    ghost const start: seq<Lane>

    /** The last block fed is never compressed early: with any block compressed, the buffer holds at least one byte. */
    ghost predicate Valid()
      reads this, h, buf
    {
      && h.Length == 8 && buf.Length == BLOCK && outLen <= 64 && |start| == 8
      && buflen <= BLOCK && (blocks > 0 ==> buflen > 0)
      && |fed| == 128 * blocks + buflen && buf[..buflen] == fed[128 * blocks..]
      && h[..] == Chained(start, fed, blocks) && Counts(t0, t1, 128 * blocks)
    }

    /** Between a flush and the next byte the buffer is empty. */
    ghost predicate Valid0()
      reads this, h
    {
      && h.Length == 8 && buf.Length == BLOCK && outLen <= 64 && |start| == 8 && |fed| == 128 * blocks
      && h[..] == Chained(start, fed, blocks) && Counts(t0, t1, 128 * blocks)
    }

    method Inc(n: nat, ghost total: nat)
      requires n < TWO64 && Counts(t0, t1, total)
      modifies this`t0, this`t1
      ensures Counts(t0, t1, total + n)
    {
      CounterAdvances(t0, t1, total, n);
      t0 := (t0 + n) % TWO64;
      if t0 < n { t1 := (t1 + 1) % TWO64; }
    }

    method Fill() returns (v: array<Lane>)
      requires h.Length == 8
      ensures fresh(v) && v.Length == 16 && v[..] == h[..] + IV()
    {
      hide IV;
      v := new Lane[16];
      for i := 0 to 8
        invariant v[..i] == h[..i]
      {
        v[i] := h[i];
      }
      for i := 0 to 8
        invariant v[..8] == h[..] && v[8..8 + i] == IV()[..i]
      {
        v[8 + i] := IV()[i];
      }
      assert v[..] == v[..8] + v[8..16];
    }

    /** The state array of a compression. */
    method Load(last: bool, ghost total: nat) returns (v: array<Lane>)
      requires h.Length == 8 && Counts(t0, t1, total)
      ensures fresh(v) && v.Length == 16 && v[..] == Loaded(h[..], total, last)
    {
      hide Counts, Xor, LaneOf, Flipped, IV, Loaded;
      CountedLanes(t0, t1, total);
      LoadedIs(h[..], total, last);
      v := Fill();
      ghost var s := v[..];
      v[12] := Xor(v[12], LaneOf(t0));
      v[13] := Xor(v[13], LaneOf(t1));
      assert v[..] == s[12 := v[12]][13 := v[13]];
      if last {
        v[14] := Flipped(v[14]);
        assert v[..] == s[12 := v[12]][13 := v[13]][14 := v[14]];
      }
    }

    /** F on the block in the buffer; the two-word counter stands for `total`. */
    method Compress(last: bool, ghost total: nat)
      requires h.Length == 8 && buf.Length == BLOCK && Counts(t0, t1, total)
      modifies h
      ensures h[..] == F(old(h[..]), buf[..], total, last)
    {
      hide Counts, Loaded, BlockWords, Steps, Xor;
      ghost var h0 := h[..];
      var v := Load(last, total);
      ghost var v0 := v[..];
      var m := LoadWords(buf[..]);
      StepsZero(v0, m);
      for r := 0 to 12
        invariant h[..] == h0 && v[..] == Steps(v0, m, 8 * r)
      {
        Round(v, m, r, v0);
      }
      for i := 0 to 8
        invariant v[..] == Steps(v0, m, STEPS)
        invariant forall k :: 0 <= k < i ==> h[k] == Xor(h0[k], Xor(v[k], v[8 + k]))
        invariant forall k :: i <= k < 8 ==> h[k] == h0[k]
      {
        h[i] := Xor(h[i], Xor(v[i], v[8 + i]));
      }
      assert h[..] == Folded(h0, v[..]);
    }

    /** `init`: the parameter word goes into h[0] before anything is fed. */
    constructor (outLen: nat, keyLen: nat)
      requires outLen <= 64
      ensures Valid() && fed == [] && start == Parameters(outLen, keyLen) && this.outLen == outLen && fresh(h)
          && fresh(buf)
    {
      hide IV, Xor, LaneOf;
      ParameterXor(IV()[0], Lane(0x0101_0000), LaneOf(256 * keyLen), LaneOf(outLen));
      var words := IV()[0 := Xor(IV()[0], Xor(Xor(Lane(0x0101_0000), LaneOf(256 * keyLen)), LaneOf(outLen)))];
      h := new Lane[8](i requires 0 <= i < 8 => words[i]);
      buf := new byte[BLOCK](_ => 0);
      this.outLen := outLen;
      t0, t1, buflen := 0, 0, 0;
      fed, blocks, start := [], 0, words;
      new;
      assert h[..] == words;
    }

    /** A full buffer is compressed only when one more byte is there to follow it. */
    method Flush()
      requires Valid() && buflen == BLOCK
      modifies this`t0, this`t1, this`buflen, this`blocks, h
      ensures Valid0() && blocks == old(blocks) + 1 && buflen == 0
    {
      hide Counts, F;
      ghost var total := 128 * blocks;
      Inc(128, total);
      Compress(false, total + 128);
      assert buf[..] == buf[..buflen] == fed[128 * blocks..];
      assert fed[128 * blocks..] == fed[128 * blocks..128 * (blocks + 1)];
      blocks := blocks + 1;
      buflen := 0;
    }

    method UpdateByte(b: byte)
      requires Valid()
      modifies this, h, buf
      ensures Valid() && fed == old(fed) + [b]
    {
      hide Counts, Chained;
      if buflen == BLOCK { Flush(); }
      ChainedPrefix(start, fed, [b], blocks);
      buf[buflen] := b;
      buflen := buflen + 1;
      fed := fed + [b];
    }

    /** What counts is the bytes fed, not how they were cut into chunks. */
    method Update(input: Bytes)
      requires Valid()
      modifies this, h, buf
      ensures Valid() && fed == old(fed) + input
    {
      hide Counts, Chained;
      for i := 0 to |input|
        invariant Valid() && fed == old(fed) + input[..i]
      {
        UpdateByte(input[i]);
        assert input[..i + 1] == input[..i] + [input[i]];
      }
      assert input[..|input|] == input;
    }

    /** Zeros up to the end of the block. */
    method Pad()
      requires buf.Length == BLOCK && buflen <= BLOCK
      modifies this`buflen, buf
      ensures buf[..] == ZeroPadded(old(buf[..buflen]))
    {
      ghost var b := buf[..buflen];
      while buflen < BLOCK
        invariant |b| <= buflen <= BLOCK && buf[..buflen] == b + Zeros(buflen - |b|)
      {
        buf[buflen] := 0;
        buflen := buflen + 1;
      }
    }

    method Final() returns (out: Bytes)
      requires Valid()
      modifies this, h, buf
      ensures out == Digest(start, old(fed), outLen)
    {
      hide Counts, F, Chained, ZeroPadded, Output, Digest;
      DigestIs(start, fed, blocks, buflen, outLen);
      Inc(buflen, 128 * blocks);
      Pad();
      Compress(true, |fed|);
      out := Emit();
    }

    /** The little-endian bytes of the state. */
    method Emit() returns (out: Bytes)
      requires h.Length == 8 && outLen <= 64
      ensures out == Output(h[..], outLen)
    {
      hide ByteOf;
      out := [];
      for i := 0 to outLen
        invariant |out| == i && forall k :: 0 <= k < i ==> out[k] == ByteOf(h[k / 8].w, k % 8)
      {
        out := out + [ByteOf(h[i / 8].w, i % 8)];
      }
    }
  }

  lemma XorAssociates(a: Words.Word, b: Words.Word, c: Words.Word)
    ensures XorWord(XorWord(a, b), c) == XorWord(a, XorWord(b, c))
  {
    assert XorWord(a ^ b, c) == XorWord(a, b ^ c);
  }

  lemma ParameterXor(iv: Lane, p: Lane, k: Lane, n: Lane)
    ensures Xor(iv, Xor(Xor(p, k), n)) == Xor(Xor(Xor(iv, p), k), n)
  {
    hide XorWord;
    XorAssociates(iv.w, p.w, k.w);
    XorAssociates(iv.w, XorWord(p.w, k.w), n.w);
  }

  /** The block in the buffer is the last one. */
  lemma DigestIs(h: seq<Lane>, fed: Bytes, blocks: nat, buflen: nat, outLen: nat)
    requires |h| == 8 && outLen <= 64
    requires |fed| == 128 * blocks + buflen && buflen <= BLOCK && (blocks > 0 ==> buflen > 0)
    ensures Digest(h, fed, outLen) == Output(F(Chained(h, fed, blocks), ZeroPadded(fed[128 * blocks..]), |fed|, true),
                                             outLen)
  {
    hide F, Chained, Output;
    assert BlockCount(fed) == blocks + 1 && BlockAt(fed, blocks) == ZeroPadded(fed[128 * blocks..]);
  }

  /** The one-shot function: a key is fed as one zero-filled block in front of the data. */
  method Blake2bOf(data: Bytes, key: Bytes, outLen: nat) returns (r: Option<Bytes>)
    ensures r == if 1 <= outLen <= 64 && |key| <= 64 then Some(Blake2bHash(data, key, outLen)) else None
  {
    if outLen < 1 || outLen > 64 { return None; }
    if |key| > 64 { return None; }
    hide Digest, Chained, Parameters, ZeroPadded, Counts;
    var st := new Blake2b(outLen, |key|);
    if key != [] { st.Update(ZeroPadded(key)); }
    if data != [] { st.Update(data); }
    assert st.fed == Message(key, data);
    var out := st.Final();
    r := Some(out);
  }
}
