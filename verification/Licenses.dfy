/** The 25-byte license structure: how it is built and when the server accepts it. */
module Licenses {
  import opened ByteStrings
  import opened Crypto

  const LICENSE_VERSION: byte := 6
  const STRUCT_SIZE: nat := 25

  function Fragment(p: Primitives, username: Bytes): (r: Bytes)
    requires Lawful(p)
    ensures |r| == 4
  { Blake2b(p, username, Ascii("RG6-LICENSE-FRAGMENT/v6"), 4) }

  function Checksum(p: Primitives, secret: Bytes, payload: Bytes): (r: Bytes)
    requires Lawful(p)
    ensures |r| == 4
  { Blake2b(p, Ascii("RG6-LICENSE-CHECKSUM/v6") + payload, secret, 4) }

  /** The exclusive or of all bytes. */
  function Parity(s: Bytes): byte { if s == [] then 0 else XorByte(Parity(s[..|s| - 1]), s[|s| - 1]) }

  method ParityOf(s: Bytes) returns (parity: byte)
    ensures parity == Parity(s)
  {
    hide XorByte;
    parity := 0;
    for i := 0 to |s|
      invariant parity == Parity(s[..i])
    {
      assert s[..i + 1][..i] == s[..i];
      parity := XorByte(parity, s[i]);
    }
    assert s[..|s|] == s;
  }

  /** What the server demands of a structure; bytes behind the 25th are not looked at. */
  predicate Accepts(p: Primitives, secret: Bytes, username: Bytes, st: Bytes)
    requires Lawful(p)
  {
    && |st| >= STRUCT_SIZE && st[0] == LICENSE_VERSION && st[1..5] == Fragment(p, username)
    && st[17] == Parity(st[..17]) && st[21..25] == Checksum(p, secret, st[..21])
  }

  /** A slice that comes out short when the bytes run out. */
  function Slice(s: Bytes, lo: nat, hi: nat): Bytes
    requires lo <= hi
  { if hi <= |s| then s[lo..hi] else if lo <= |s| then s[lo..] else [] }

  /** The checks in the server's order; each of them raises, as does the parity byte's index on a short structure. */
  method ValidateLicense(p: Primitives, secret: Bytes, username: Bytes, st: Bytes) returns (ok: bool)
    requires Lawful(p)
    ensures ok <==> Accepts(p, secret, username, st)
  {
    hide Lawful, Blake2b, Ascii, XorByte;
    if |st| <= 17 { return false; }
    if st[0] != LICENSE_VERSION { return false; }
    if Slice(st, 1, 5) != Fragment(p, username) { return false; }
    var parity := ParityOf(Slice(st, 0, 17));
    assert st[0..17] == st[..17];
    if parity != st[17] { return false; }
    if Slice(st, 21, 25) != Checksum(p, secret, Slice(st, 0, 21)) { return false; }
    assert st[0..21] == st[..21];
    ok := true;
  }

  /** The license of a username. */
  function Built(p: Primitives, secret: Bytes, username: Bytes): (st: Bytes)
    requires Lawful(p)
    ensures |st| == STRUCT_SIZE
  {
    var payload17 := [LICENSE_VERSION] + Fragment(p, username)
      + Blake2b(p, Ascii("proof-seed") + username, secret, 8) + Blake2b(p, Ascii("vm-seed") + username, secret, 4);
    var payload21 := payload17 + [Parity(payload17)] + Blake2b(p, Ascii("ts") + username, [], 3);
    payload21 + Checksum(p, secret, payload21)
  }

  method BuildLicense(p: Primitives, secret: Bytes, username: Bytes) returns (st: Bytes)
    requires Lawful(p)
    ensures st == Built(p, secret, username)
  {
    hide Lawful, Blake2b, Ascii;
    var proofSeed := Blake2b(p, Ascii("proof-seed") + username, secret, 8);
    var vmSeed := Blake2b(p, Ascii("vm-seed") + username, secret, 4);
    var payload17 := [LICENSE_VERSION] + Fragment(p, username) + proofSeed + vmSeed;
    var parity := ParityOf(payload17);
    var payload21 := payload17 + [parity] + Blake2b(p, Ascii("ts") + username, [], 3);
    st := payload21 + Checksum(p, secret, payload21);
  }

  /** Every license the author's tool builds is accepted for its username. */
  lemma BuiltIsAccepted(p: Primitives, secret: Bytes, username: Bytes)
    requires Lawful(p)
    ensures Accepts(p, secret, username, Built(p, secret, username))
  {
    hide Lawful, Ascii, Parity, Blake2b, Checksum, Fragment;
    var payload17 := [LICENSE_VERSION] + Fragment(p, username)
      + Blake2b(p, Ascii("proof-seed") + username, secret, 8) + Blake2b(p, Ascii("vm-seed") + username, secret, 4);
    var payload21 := payload17 + [Parity(payload17)] + Blake2b(p, Ascii("ts") + username, [], 3);
    var st := payload21 + Checksum(p, secret, payload21);
    assert st[..21] == payload21 && st[..17] == payload17 && st[21..25] == Checksum(p, secret, payload21);
    assert st[1..5] == payload17[1..5] == Fragment(p, username);
  }

  // ---- one changed byte -------------------------------------------------------------------------------------

  /** a and b differ in place i alone. */
  predicate DifferAt(a: Bytes, b: Bytes, i: nat) {
    |a| == |b| && i < |a| && a[i] != b[i] && a[..i] == b[..i] && a[i + 1..] == b[i + 1..]
  }

  lemma XorDiffers(a: byte, b: byte, c: byte)
    requires a != b
    ensures XorByte(a, c) != XorByte(b, c) && XorByte(c, a) != XorByte(c, b)
  {
    XorByteLaws(a, c, 0);
    XorByteLaws(b, c, 0);
    hide XorByte;
  }

  lemma {:induction false} ParityDiffers(a: Bytes, b: Bytes, i: nat)
    requires DifferAt(a, b, i)
    ensures Parity(a) != Parity(b)
  {
    hide XorByte;
    var n := |a| - 1;
    if i == n {
      XorDiffers(a[n], b[n], Parity(a[..n]));
    } else {
      assert a[n] == a[i + 1..][n - i - 1] && b[n] == b[i + 1..][n - i - 1];
      assert a[..n][i + 1..] == a[i + 1..][..n - i - 1] && b[..n][i + 1..] == b[i + 1..][..n - i - 1];
      assert a[..n][..i] == a[..i] && b[..n][..i] == b[..i];
      ParityDiffers(a[..n], b[..n], i);
      XorDiffers(Parity(a[..n]), Parity(b[..n]), a[n]);
    }
  }

  /**
   No accepted structure stays accepted when any one of bytes 0 to 17 changes, whatever BLAKE2b and
   the secret are, and even for another username.
   */
  lemma ChangedByteIsRejected(p: Primitives, secret: Bytes, u: Bytes, u': Bytes, a: Bytes, b: Bytes, i: nat)
    requires Lawful(p) && Accepts(p, secret, u, a) && DifferAt(a, b, i) && i <= 17
    ensures !Accepts(p, secret, u', b)
  {
    hide Lawful, Parity, Checksum, Fragment;
    if i < 17 {
      assert a[i + 1..][..16 - i] == a[i + 1..17] && b[i + 1..][..16 - i] == b[i + 1..17];
      assert a[..17][..i] == a[..i] && b[..17][..i] == b[..i];
      assert a[..17][i + 1..] == a[i + 1..17] && b[..17][i + 1..] == b[i + 1..17];
      ParityDiffers(a[..17], b[..17], i);
      assert a[17] == a[i + 1..][16 - i] && b[17] == b[i + 1..][16 - i];
    } else {
      assert a[..17] == b[..17];
    }
  }

  /**
   Acceptance for two usernames means equal fragments: `u` and `u'` then collide under the keyed
   4-byte BLAKE2b, so binding to the username is exactly as strong as that fragment.
   */
  lemma AcceptedForTwoNames(p: Primitives, secret: Bytes, u: Bytes, u': Bytes, st: Bytes)
    requires Lawful(p) && Accepts(p, secret, u, st)
    ensures Accepts(p, secret, u', st) <==> Fragment(p, u) == Fragment(p, u')
  {
    hide Lawful, Parity, Checksum, Fragment;
  }

  // ---- the fields of a built license ------------------------------------------------------------------------

  lemma HashOf(p: Primitives, data: Bytes, key: Bytes, size: nat)
    requires Lawful(p) && 1 <= size <= 64
    ensures Blake2b(p, data, key, size) == p.blake2b(data, key, size)
  {}

  /** Where the tool puts what: version, fragment, two seeds, parity, timestamp and checksum. */
  lemma BuiltFields(p: Primitives, secret: Bytes, username: Bytes)
    requires Lawful(p)
    ensures var st := Built(p, secret, username);
            && st[0] == 6 && st[1..5] == p.blake2b(username, Ascii("RG6-LICENSE-FRAGMENT/v6"), 4)
            && st[5..13] == p.blake2b(Ascii("proof-seed") + username, secret, 8)
            && st[13..17] == p.blake2b(Ascii("vm-seed") + username, secret, 4)
            && st[17] == Parity(st[..17])
            && st[18..21] == p.blake2b(Ascii("ts") + username, [], 3)
            && st[21..25] == p.blake2b(Ascii("RG6-LICENSE-CHECKSUM/v6") + st[..21], secret, 4)
  {
    BuiltIsAccepted(p, secret, username);
    hide Lawful, Ascii, Parity, Blake2b;
    HashOf(p, username, Ascii("RG6-LICENSE-FRAGMENT/v6"), 4);
    HashOf(p, Ascii("proof-seed") + username, secret, 8);
    HashOf(p, Ascii("vm-seed") + username, secret, 4);
    HashOf(p, Ascii("ts") + username, [], 3);
    HashOf(p, Ascii("RG6-LICENSE-CHECKSUM/v6") + Built(p, secret, username)[..21], secret, 4);
    var st := Built(p, secret, username);
    var payload17 := [LICENSE_VERSION] + Fragment(p, username)
      + Blake2b(p, Ascii("proof-seed") + username, secret, 8) + Blake2b(p, Ascii("vm-seed") + username, secret, 4);
    var payload21 := payload17 + [Parity(payload17)] + Blake2b(p, Ascii("ts") + username, [], 3);
    assert st[..21] == payload21 && payload21[..17] == payload17;
    assert st[5..13] == payload17[5..13] && st[13..17] == payload17[13..17] && st[18..21] == payload21[18..21];
  }

  /** The parity byte has the bits that an odd number of the bytes have. */
  lemma {:induction false} ParityBits(s: Bytes, i: nat)
    requires i < 8
    ensures BitAt(Parity(s), i) == BitsSet(s, i) % 2
  {
    hide XorByte;
    if s != [] {
      ParityBits(s[..|s| - 1], i);
      XorByteAt(Parity(s[..|s| - 1]), s[|s| - 1], i);
    } else {
      ZeroBits(i);
    }
  }

  lemma {:induction false} ZeroBits(i: nat)
    ensures BitAt(0, i) == 0
  {
    if i > 0 { ZeroBits(i - 1); }
  }

  /** How many of the bytes have bit i. */
  function BitsSet(s: Bytes, i: nat): nat {
    if s == [] then 0 else BitsSet(s[..|s| - 1], i) + BitAt(s[|s| - 1], i)
  }
}
