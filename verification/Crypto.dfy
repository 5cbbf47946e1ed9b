/**
 The library primitives, kept abstract. Only the facts in `Lawful` are ever used about them:
 fixed output lengths, decryption undoing encryption, agreement of the Diffie-Hellman halves
 (section 6.1 of RFC 7748) and verification accepting signatures (section 5.1 of RFC 8032).
 Nothing says that a hash or a MAC is injective.
 */
module Crypto {
  import opened ByteStrings

  datatype Primitives = Primitives(
    sha256: Bytes -> Bytes,
    hmac: (Bytes, Bytes) -> Bytes,                                  // key, data
    blake2b: (Bytes, Bytes, nat) -> Bytes,                          // data, key, digest size
    x25519Base: Bytes -> Bytes,                                     // private key
    x25519Shared: (Bytes, Bytes) -> Option<Bytes>,                  // private key, peer's public key
    signPublic: Bytes -> Bytes,                                     // signing seed
    sign: (Bytes, Bytes) -> Bytes,                                  // signing seed, message
    verify: (Bytes, Bytes, Bytes) -> bool,                          // public key, message, signature
    aeadEncrypt: (Bytes, Bytes, Bytes, Bytes) -> (Bytes, Bytes),    // key, nonce, plaintext, aad
    aeadDecrypt: (Bytes, Bytes, Bytes, Bytes, Bytes) -> Option<Bytes>) // key, nonce, ciphertext, tag, aad

  ghost predicate Lawful(p: Primitives) {
    && (forall d :: |p.sha256(d)| == 32)
    && (forall k, d :: |p.hmac(k, d)| == 32)
    && (forall d, k, n :: 1 <= n <= 64 ==> |p.blake2b(d, k, n)| == n)
    && (forall a :: |a| == 32 ==> |p.x25519Base(a)| == 32)
    && (forall a, b :: |a| == 32 && |b| == 32 ==>
          && p.x25519Shared(a, p.x25519Base(b)).Some?
          && p.x25519Shared(a, p.x25519Base(b)) == p.x25519Shared(b, p.x25519Base(a)))
    && (forall s, m :: |p.sign(s, m)| == 64)
    && (forall s, m :: p.verify(p.signPublic(s), m, p.sign(s, m)))
    && (forall k, n, t, a :: var c := p.aeadEncrypt(k, n, t, a);
          |c.0| == |t| && |c.1| == 16 && p.aeadDecrypt(k, n, c.0, c.1, a) == Some(t))
  }

  function Zeros(n: nat): (z: Bytes)
    ensures |z| == n
  { seq(n, _ => 0) }

  /** The facts are consistent. */
  lemma LawfulExists() returns (p: Primitives)
    ensures Lawful(p)
  {
    p := Primitives(
      _ => Zeros(32), (_, _) => Zeros(32), (_, _, n: nat) => Zeros(n), _ => Zeros(32), (_, _) => Some(Zeros(32)),
      s => s, (_, _) => Zeros(64), (_, _, _) => true,
      (_, _, t, _) => (t, Zeros(16)), (_, _, c, _, _) => Some(c));
  }

  // ---- the primitives with their lengths as postconditions --------------------------------------------

  function Sha256(p: Primitives, data: Bytes): (r: Bytes)
    requires Lawful(p)
    ensures |r| == 32
  { p.sha256(data) }

  function Hmac(p: Primitives, key: Bytes, data: Bytes): (r: Bytes)
    requires Lawful(p)
    ensures |r| == 32
  { p.hmac(key, data) }

  function Blake2b(p: Primitives, data: Bytes, key: Bytes, size: nat): (r: Bytes)
    requires Lawful(p) && 1 <= size <= 64
    ensures |r| == size
  { p.blake2b(data, key, size) }
}
