/**
 The keystream-driven Fisher-Yates shuffle behind the handler table. The code of the two programs
 is the same; the client then dispatches through the shuffled slots.
 */
module Dispatch {
  import opened ByteStrings
  import opened Crypto

  // ---- the BLAKE2b counter-mode keystream --------------------------------------------------------

  /** The first n blocks. */
  function CtrBlocks(p: Primitives, key: Bytes, domain: Bytes, n: nat): (k: Bytes)
    requires Lawful(p)
    ensures |k| == 64 * n
  {
    if n == 0 then [] else CtrBlocks(p, key, domain, n - 1) + Blake2b(p, domain + BigEndian(n - 1, 8), key, 64)
  }

  function Keystream(p: Primitives, key: Bytes, length: nat, domain: Bytes): (k: Bytes)
    requires Lawful(p)
    ensures |k| == length
  { CtrBlocks(p, key, domain, (length + 63) / 64)[..length] }

  lemma {:induction false} BlockInCtr(p: Primitives, key: Bytes, domain: Bytes, n: nat, j: nat)
    requires Lawful(p) && j < n
    ensures CtrBlocks(p, key, domain, n)[64 * j..64 * j + 64] == Blake2b(p, domain + BigEndian(j, 8), key, 64)
    decreases n
  {
    hide Blake2b, Lawful, BigEndian;
    if j < n - 1 { BlockInCtr(p, key, domain, n - 1, j); }
  }

  /** Byte i comes from block i / 64: the keyed hash of the domain and the block number in eight bytes. */
  lemma KeystreamAt(p: Primitives, key: Bytes, length: nat, domain: Bytes, i: nat)
    requires Lawful(p) && i < length
    ensures |p.blake2b(domain + BigEndian(i / 64, 8), key, 64)| == 64
    ensures Keystream(p, key, length, domain)[i] == p.blake2b(domain + BigEndian(i / 64, 8), key, 64)[i % 64]
  {
    assert Blake2b(p, domain + BigEndian(i / 64, 8), key, 64) == p.blake2b(domain + BigEndian(i / 64, 8), key, 64);
    hide Blake2b, Lawful, BigEndian, CtrBlocks;
    var n, j := (length + 63) / 64, i / 64;
    BlockInCtr(p, key, domain, n, j);
    assert CtrBlocks(p, key, domain, n)[64 * j..64 * j + 64][i % 64] == CtrBlocks(p, key, domain, n)[i];
  }

  /** Whole blocks are appended until there are enough bytes, and the surplus is cut off. */
  method BlakeCtrKeystream(p: Primitives, key: Bytes, length: nat, domain: Bytes) returns (out: Bytes)
    requires Lawful(p)
    ensures out == Keystream(p, key, length, domain)
  {
    hide Blake2b, Lawful;
    out := [];
    var counter := 0;
    while |out| < length
      invariant out == CtrBlocks(p, key, domain, counter)
      invariant counter <= (length + 63) / 64
      decreases length - |out|
    {
      out := out + Blake2b(p, domain + BigEndian(counter, 8), key, 64);
      counter := counter + 1;
    }
    out := out[..length];
  }

  function XorBytes(a: Bytes, b: Bytes): (r: Bytes)
    requires |a| == |b|
    ensures |r| == |a|
  { seq(|a|, i requires 0 <= i < |a| => XorByte(a[i], b[i])) }

  function StreamXor(p: Primitives, key: Bytes, data: Bytes, domain: Bytes): (r: Bytes)
    requires Lawful(p)
    ensures |r| == |data|
  { XorBytes(data, Keystream(p, key, |data|, domain)) }

  /** Decrypting the embedded blob gives back the assembled program. */
  lemma StreamXorTwice(p: Primitives, key: Bytes, data: Bytes, domain: Bytes)
    requires Lawful(p)
    ensures StreamXor(p, key, StreamXor(p, key, data, domain), domain) == data
  {
    var ks := Keystream(p, key, |data|, domain);
    hide XorByte, Keystream;
    forall i | 0 <= i < |data| ensures XorByte(XorByte(data[i], ks[i]), ks[i]) == data[i] {
      XorByteLaws(data[i], ks[i], 0);
    }
  }

  // ---- the shuffle ---------------------------------------------------------------------------------

  ghost predicate IsPermutation(s: seq<nat>) {
    && |s| == 256
    && (forall i :: 0 <= i < 256 ==> s[i] < 256)
    && (forall i, j :: 0 <= i < j < 256 ==> s[i] != s[j])
  }

  function Swap(s: seq<nat>, i: nat, j: nat): seq<nat>
    requires i < |s| && j < |s|
  { s[i := s[j]][j := s[i]] }

  lemma SwapPermutes(s: seq<nat>, i: nat, j: nat)
    requires IsPermutation(s) && i < 256 && j < 256
    ensures IsPermutation(Swap(s, i, j))
  {}

  function Draw(ks: Bytes, i: nat): (j: nat)
    requires 2 * i + 1 < |ks|
    ensures j <= i
  { ((ks[2 * i] as nat) * 256 + ks[2 * i + 1]) % (i + 1) }

  /** The swaps at i, i - 1, ..., 1. */
  function ShuffleFrom(s: seq<nat>, ks: Bytes, i: nat): seq<nat>
    requires |s| == 256 && |ks| == 512 && i < 256
    decreases i
  { if i == 0 then s else ShuffleFrom(Swap(s, i, Draw(ks, i)), ks, i - 1) }

  function Identity(): seq<nat> { seq(256, i => i) }

  lemma {:induction false} ShufflePermutes(s: seq<nat>, ks: Bytes, i: nat)
    requires IsPermutation(s) && |ks| == 512 && i < 256
    ensures IsPermutation(ShuffleFrom(s, ks, i))
    decreases i
  {
    if i > 0 {
      SwapPermutes(s, i, Draw(ks, i));
      ShufflePermutes(Swap(s, i, Draw(ks, i)), ks, i - 1);
    }
  }

  function PermutationKeystream(p: Primitives, nonce: Bytes): (ks: Bytes)
    requires Lawful(p)
    ensures |ks| == 512
  {
    var seed := Blake2b(p, Ascii("RG6-VM-PERM/v6") + nonce, [], 32);
    Keystream(p, seed, 512, Ascii("RG6-VM-PERM-KS/v6"))
  }

  method ShuffleInPlace(perm: array<nat>, ks: Bytes)
    requires perm.Length == 256 && |ks| == 512
    modifies perm
    ensures perm[..] == ShuffleFrom(old(perm[..]), ks, 255)
  {
    hide Draw;
    var i := 255;
    while i > 0
      invariant 0 <= i < 256
      invariant ShuffleFrom(perm[..], ks, i) == ShuffleFrom(old(perm[..]), ks, 255)
    {
      var j := Draw(ks, i);
      SwapPair(perm, i, j);
      i := i - 1;
    }
  }

  method SwapPair(perm: array<nat>, i: nat, j: nat)
    requires i < perm.Length && j < perm.Length
    modifies perm
    ensures perm[..] == Swap(old(perm[..]), i, j)
  {
    perm[i], perm[j] := perm[j], perm[i];
  }

  /** The client's loop and the server's are the same; the result permutes 0..255 for every nonce. */
  method HandlerPermutation(p: Primitives, nonce: Bytes) returns (perm: array<nat>)
    requires Lawful(p)
    ensures fresh(perm) && IsPermutation(perm[..])
    ensures perm[..] == ShuffleFrom(Identity(), PermutationKeystream(p, nonce), 255)
  {
    hide Keystream, Blake2b, Lawful;
    var seed := Blake2b(p, Ascii("RG6-VM-PERM/v6") + nonce, [], 32);
    var ks := BlakeCtrKeystream(p, seed, 512, Ascii("RG6-VM-PERM-KS/v6"));
    perm := new nat[256](i => i);
    assert perm[..] == Identity();
    ShufflePermutes(Identity(), ks, 255);
    ShuffleInPlace(perm, ks);
  }
}
