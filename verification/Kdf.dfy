/** HKDF (RFC 5869) as both programs write it out, and the seven session keys. */
module Kdf {
  import opened ByteStrings
  import opened Crypto

  function HkdfExtract(p: Primitives, salt: Bytes, ikm: Bytes): (prk: Bytes)
    requires Lawful(p)
    ensures |prk| == 32
  { Hmac(p, if salt == [] then Zeros(32) else salt, ikm) }

  function LowByte(i: nat): byte { i % 256 }

  lemma LowByteNext(i: nat)
    ensures LowByte(i + 1) == LowByte(LowByte(i) + 1)
    ensures i < 256 ==> LowByte(i) == i
  {}

  /** T(i) of section 2.3 of RFC 5869. */
  function ExpandBlock(p: Primitives, prk: Bytes, info: Bytes, i: nat): (t: Bytes)
    requires Lawful(p)
    ensures |t| == if i == 0 then 0 else 32
  { if i == 0 then [] else Hmac(p, prk, ExpandBlock(p, prk, info, i - 1) + info + [LowByte(i)]) }

  /** T(1) | ... | T(n). */
  function ExpandBlocks(p: Primitives, prk: Bytes, info: Bytes, n: nat): (out: Bytes)
    requires Lawful(p)
    ensures |out| == 32 * n
  { if n == 0 then [] else ExpandBlocks(p, prk, info, n - 1) + ExpandBlock(p, prk, info, n) }

  lemma {:induction false} BlocksPrefix(p: Primitives, prk: Bytes, info: Bytes, i: nat, n: nat)
    requires Lawful(p) && 1 <= i <= n
    ensures ExpandBlocks(p, prk, info, n)[32 * (i - 1)..32 * i] == ExpandBlock(p, prk, info, i)
    decreases n
  {
    hide Lawful, ExpandBlock;
    if i < n { BlocksPrefix(p, prk, info, i, n - 1); }
  }

  /** Section 2.3 of RFC 5869: T(i) is the MAC of T(i - 1), the info and the byte i, and T(0) is empty. */
  lemma ExpandedBlock(p: Primitives, prk: Bytes, info: Bytes, length: nat, i: nat)
    requires Lawful(p) && 1 <= i <= 255 && 32 * i <= length
    ensures var okm := HkdfExpand(p, prk, info, length);
            okm[32 * (i - 1)..32 * i] ==
            p.hmac(prk, (if i == 1 then [] else okm[32 * (i - 2)..32 * (i - 1)]) + info + [i])
  {
    hide Lawful, ExpandBlock, HkdfExpand;
    var okm := HkdfExpand(p, prk, info, length);
    BlockIs(p, prk, info, i);
    ExpandedSlice(p, prk, info, length, i);
    if i > 1 {
      ExpandedSlice(p, prk, info, length, i - 1);
      assert okm[32 * (i - 2)..32 * (i - 1)] == ExpandBlock(p, prk, info, i - 1);
    }
  }

  lemma BlockIs(p: Primitives, prk: Bytes, info: Bytes, i: nat)
    requires Lawful(p) && 1 <= i <= 255
    ensures ExpandBlock(p, prk, info, i) == p.hmac(prk, ExpandBlock(p, prk, info, i - 1) + info + [i])
    ensures ExpandBlock(p, prk, info, 0) == []
  {
    LowByteNext(i);
    hide LowByte, Lawful;
  }

  lemma ExpandedSlice(p: Primitives, prk: Bytes, info: Bytes, length: nat, i: nat)
    requires Lawful(p) && 1 <= i && 32 * i <= length
    ensures HkdfExpand(p, prk, info, length)[32 * (i - 1)..32 * i] == ExpandBlock(p, prk, info, i)
  {
    hide Lawful, ExpandBlock, ExpandBlocks;
    var n := (length + 31) / 32;
    BlocksPrefix(p, prk, info, i, n);
    SliceOfPrefix(ExpandBlocks(p, prk, info, n), length, 32 * (i - 1), 32 * i);
  }

  lemma SliceOfPrefix(s: Bytes, n: nat, lo: nat, hi: nat)
    requires lo <= hi <= n <= |s|
    ensures s[..n][lo..hi] == s[lo..hi]
  {}

  const MAX_LENGTH: nat := 255 * 32

  /** HKDF-Expand; the standard defines it for at most 255 blocks. */
  function HkdfExpand(p: Primitives, prk: Bytes, info: Bytes, length: nat): (okm: Bytes)
    requires Lawful(p)
    ensures |okm| == length
  { ExpandBlocks(p, prk, info, (length + 31) / 32)[..length] }

  /** The server's loop: the 256th block counter is no byte, so a longer output raises. */
  method ExpandServer(p: Primitives, prk: Bytes, info: Bytes, length: nat) returns (r: Option<Bytes>)
    requires Lawful(p)
    ensures r == if length <= MAX_LENGTH then Some(HkdfExpand(p, prk, info, length)) else None
  {
    hide Hmac, Lawful, LowByte;
    var out: Bytes, t: Bytes, counter := [], [], 1;
    while |out| < length
      invariant 1 <= counter <= 256 && counter <= (length + 31) / 32 + 1
      invariant out == ExpandBlocks(p, prk, info, counter - 1) && t == ExpandBlock(p, prk, info, counter - 1)
      decreases length - |out|
    {
      if counter > 255 { return None; }
      LowByteNext(counter);
      t := Hmac(p, prk, t + info + [counter]);
      out := out + t;
      counter := counter + 1;
    }
    r := Some(out[..length]);
  }

  /** The client's loop: its 8-bit counter wraps, which no length up to the limit reaches. */
  method ExpandClient(p: Primitives, prk: Bytes, info: Bytes, length: nat) returns (out: Bytes)
    requires Lawful(p)
    ensures out == HkdfExpand(p, prk, info, length)
  {
    hide Hmac, Lawful, LowByte;
    out := [];
    var t: Bytes, counter: byte := [], 1;
    LowByteNext(1);
    ghost var n := 0;
    while |out| < length
      invariant counter == LowByte(n + 1) && n <= (length + 31) / 32
      invariant out == ExpandBlocks(p, prk, info, n) && t == ExpandBlock(p, prk, info, n)
      decreases length - |out|
    {
      t := Hmac(p, prk, t + info + [counter]);
      out := out + t;
      LowByteNext(n + 1);
      counter := LowByte(counter + 1);
      n := n + 1;
    }
    out := out[..length];
  }

  function Hkdf(p: Primitives, salt: Bytes, ikm: Bytes, info: Bytes, length: nat): (okm: Bytes)
    requires Lawful(p)
    ensures |okm| == length
  { HkdfExpand(p, HkdfExtract(p, salt, ikm), info, length) }

  datatype Keys = Keys(c2s: Bytes, s2c: Bytes, mac: Bytes, proof1: Bytes, sproof1: Bytes, proof2: Bytes, seal: Bytes)

  function DeriveKeys(p: Primitives, prk: Bytes): Keys
    requires Lawful(p)
  {
    Keys(HkdfExpand(p, prk, Ascii("RG6 c2s aead"), 32),
         HkdfExpand(p, prk, Ascii("RG6 s2c aead"), 32),
         HkdfExpand(p, prk, Ascii("RG6 transcript mac"), 32),
         HkdfExpand(p, prk, Ascii("RG6 client proof1"), 32),
         HkdfExpand(p, prk, Ascii("RG6 server proof1"), 32),
         HkdfExpand(p, prk, Ascii("RG6 client proof2"), 32),
         HkdfExpand(p, prk, Ascii("RG6 final seal"), 32))
  }

  /** A key of 32 bytes is one block. */
  lemma OneBlock(p: Primitives, prk: Bytes, info: Bytes)
    requires Lawful(p)
    ensures HkdfExpand(p, prk, info, 32) == p.hmac(prk, info + [1])
  {
    ExpandedBlock(p, prk, info, 32, 1);
    hide Lawful;
    assert [] + info == info;
  }

  /** The seven keys and the labels they are derived under. */
  lemma KeysAre(p: Primitives, salt: Bytes, shared: Bytes)
    requires Lawful(p) && salt != []
    ensures var prk := p.hmac(salt, shared);
            DeriveKeys(p, HkdfExtract(p, salt, shared)) ==
            Keys(p.hmac(prk, Ascii("RG6 c2s aead") + [1]), p.hmac(prk, Ascii("RG6 s2c aead") + [1]),
                 p.hmac(prk, Ascii("RG6 transcript mac") + [1]), p.hmac(prk, Ascii("RG6 client proof1") + [1]),
                 p.hmac(prk, Ascii("RG6 server proof1") + [1]), p.hmac(prk, Ascii("RG6 client proof2") + [1]),
                 p.hmac(prk, Ascii("RG6 final seal") + [1]))
  {
    var prk := HkdfExtract(p, salt, shared);
    assert prk == p.hmac(salt, shared);
    hide Lawful, HkdfExtract, HkdfExpand, Ascii;
    OneBlock(p, prk, Ascii("RG6 c2s aead"));
    OneBlock(p, prk, Ascii("RG6 s2c aead"));
    OneBlock(p, prk, Ascii("RG6 transcript mac"));
    OneBlock(p, prk, Ascii("RG6 client proof1"));
    OneBlock(p, prk, Ascii("RG6 server proof1"));
    OneBlock(p, prk, Ascii("RG6 client proof2"));
    OneBlock(p, prk, Ascii("RG6 final seal"));
  }

  function BootstrapMacKey(p: Primitives): Bytes
    requires Lawful(p)
  { Sha256(p, Ascii("RG6-BOOTSTRAP-MAC/v6")) }
}
