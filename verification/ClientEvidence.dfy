/** What the client demands of each reply, and what it then sends, said of bytes and primitives alone. */
module ClientEvidence {
  import opened ByteStrings
  import opened Crypto
  import opened FrameFormat
  import opened Transcripts
  import opened Kdf
  import opened Channel
  import opened VmInputs
  import opened ServerModel
  import opened ServerRuns
  import opened ClientModel
  import opened Evidence
  import Isa

  // ---- HELLO and challenge ----------------------------------------------------------------------------------

  /** T1 behind the bytes of the HELLO. */
  function AfterHello(p: Primitives, d: ClientDraws, username: Bytes): Bytes
    requires Lawful(p)
  { p.sha256(Seed(p) + Serialize(HelloFrame(p, d, username))) }

  /** The HELLO: key, random, length and name in the clear under the public key. */
  lemma HelloSent(p: Primitives, d: ClientDraws, username: Bytes)
    requires Lawful(p) && ClientSized(d) && |username| < 0x1_0000
    ensures var raw := Serialize(HelloFrame(p, d, username));
            && Authentic(p, Seed(p), PublicKey(p), raw) && Labelled(raw, 1, d.sessionId, 1)
            && Body(raw) == p.x25519Base(d.private) + d.random + BigEndian(|username|, 2) + username
  {
    NamesAre(p);
    Pow256Values();
    HelloBytesAre(p, d, username);
    hide Lawful, Authentic, Labelled, Body, Seed, PublicKey, BootstrapMacKey, Transcripts.Start, Serialize, Pow256,
         HelloBytes, PlainSealed;
    ClearFrame(p, Seed(p), PublicKey(p), 1, d.sessionId, 1, d.nonce1, HelloBytes(p, d, username));
  }

  lemma HelloBytesAre(p: Primitives, d: ClientDraws, username: Bytes)
    requires Lawful(p) && ClientSized(d) && |username| < 0x1_0000
    ensures HelloBytes(p, d, username) == p.x25519Base(d.private) + d.random + BigEndian(|username|, 2) + username
    ensures |HelloBytes(p, d, username)| == 50 + |username|
  {
    assert |p.x25519Base(d.private)| == 32 && |username| % 0x1_0000 == |username|;
    hide Lawful, BigEndian;
  }

  /** A challenge the client accepts at T1: the server's signature over T1, public key and random is valid. */
  predicate Signed(p: Primitives, signPublic: Bytes, private: Bytes, t1: Bytes, raw: Bytes) {
    && Authentic(p, t1, PublicKey(p), raw)
    && var b := Body(raw);
    && |b| >= 112
    && p.verify(signPublic, Ascii("RG6-SERVER-CHALLENGE/v6") + t1 + b[..32] + b[32..48], b[48..112])
    && p.x25519Shared(private, b[..32]).Some?
  }

  /** What the client takes from it: the keys of the shared secret and T2, and its own engine's outputs. */
  predicate LearnedFrom(p: Primitives, d: ClientDraws, e: Entry, t1: Bytes, raw: Bytes, c: Keyed)
    requires Lawful(p)
  {
    var b, t2 := Body(raw), p.sha256(t1 + raw);
    && |b| >= 112 && p.x25519Shared(d.private, b[..32]).Some?
    && c.serverPub == b[..32] && c.serverRandom == b[32..48] && c.salt == t2
    && KeysFrom(p, t2, p.x25519Shared(d.private, b[..32]).value, c.keys)
    && Isa.ResultOf(p, Code(), PackInputs(p, Inputs(e.username, e.license, b[32..48], d.sessionId, t2)), true)
       == Some(c.vm)
  }

  lemma AfterHelloIs(p: Primitives, d: ClientDraws, username: Bytes)
    requires Lawful(p)
    ensures Absorbed(p, Transcripts.Start(p), HelloFrame(p, d, username)) == AfterHello(p, d, username)
  {
    NamesAre(p);
    AbsorbedIs(p, Seed(p), HelloFrame(p, d, username));
    hide Lawful, Seed, Absorbed, Transcripts.Start, HelloFrame, Serialize;
  }

  lemma AfterProofIs(p: Primitives, c: Keyed)
    requires Lawful(p)
    ensures Absorbed(p, c.salt, c.frame) == AfterProof(p, c)
  {
    AbsorbedIs(p, c.salt, c.frame);
    hide Lawful, Absorbed, Serialize;
  }

  /** The client accepts exactly the framed, authentic and signed challenges. */
  lemma ChallengeShows(p: Primitives, signPublic: Bytes, d: ClientDraws, e: Entry, raw: Bytes)
    requires Lawful(p)
    ensures var t1, c := AfterHello(p, d, e.username), OnChallenge(p, signPublic, d, e, raw);
            && (c.Some? <==> Framed(raw) && Signed(p, signPublic, d.private, t1, raw))
            && (c.Some? ==> LearnedFrom(p, d, e, t1, raw, c.value))
  {
    AcceptedBytes(raw);
    hide Lawful, Parse, OnChallenge, Authentic, Body, KeyedBy, LearnedFrom, AfterHello, Ascii, Number;
    if Parse(raw).Some? {
      ChallengeParts(p, signPublic, d, e, raw);
      if |Body(raw)| >= 112 { KeyedShows(p, d, e, AfterHello(p, d, e.username), raw); }
    } else {
      UnframedChallenge(p, signPublic, d, e, raw);
    }
  }

  lemma UnframedChallenge(p: Primitives, signPublic: Bytes, d: ClientDraws, e: Entry, raw: Bytes)
    requires Lawful(p) && Parse(raw).None?
    ensures OnChallenge(p, signPublic, d, e, raw).None?
  {
    hide Lawful, Parse;
  }

  lemma ChallengeParts(p: Primitives, signPublic: Bytes, d: ClientDraws, e: Entry, raw: Bytes)
    requires Lawful(p) && Parse(raw).Some?
    ensures var t1, b := AfterHello(p, d, e.username), Body(raw);
            OnChallenge(p, signPublic, d, e, raw) ==
            if !Authentic(p, t1, PublicKey(p), raw) || |b| < 112
                || !p.verify(signPublic, Ascii("RG6-SERVER-CHALLENGE/v6") + t1 + b[..32] + b[32..48], b[48..112])
            then None else KeyedBy(p, d, e, b[..32], b[32..48], p.sha256(t1 + raw))
  {
    NamesAre(p);
    AfterHelloIs(p, d, e.username);
    OpensExactly(p, AfterHello(p, d, e.username), PublicKey(p), raw);
    BodyIs(raw);
    hide Lawful, Opened, Parse, Body, BootstrapMacKey, Transcripts.Start, PublicKey, KeyedBy, HelloFrame, Absorbed,
         AfterHello, Ascii;
  }

  lemma BodyIs(raw: Bytes)
    requires Parse(raw).Some?
    ensures Parse(raw).value.payload == Body(raw)
  {
    FieldsOf(raw);
    hide Parse, Number, PreMac, Header, Serialize;
  }

  /** With a usable public key the client's key schedule and engine never fail. */
  lemma KeyedShows(p: Primitives, d: ClientDraws, e: Entry, t1: Bytes, raw: Bytes)
    requires Lawful(p) && |Body(raw)| >= 112
    ensures var b := Body(raw);
            var c := KeyedBy(p, d, e, b[..32], b[32..48], p.sha256(t1 + raw));
            && (c.Some? <==> p.x25519Shared(d.private, b[..32]).Some?)
            && (c.Some? ==> LearnedFrom(p, d, e, t1, raw, c.value))
  {
    var b, t2 := Body(raw), p.sha256(t1 + raw);
    assert |t2| == 32;
    KeyedParts(p, d, e, b[..32], b[32..48], t2);
    BothVmsAgree(p, Inputs(e.username, e.license, b[32..48], d.sessionId, t2));
    if p.x25519Shared(d.private, b[..32]).Some? {
      KeysAre(p, t2, p.x25519Shared(d.private, b[..32]).value);
    }
    hide Lawful, Body, DeriveKeys, HkdfExtract, KeyedBy, Code, PackInputs, Isa.ResultOf, Ascii;
  }

  lemma KeyedParts(p: Primitives, d: ClientDraws, e: Entry, serverPub: Bytes, serverRandom: Bytes, t2: Bytes)
    requires Lawful(p)
    ensures var c, shared := KeyedBy(p, d, e, serverPub, serverRandom, t2), p.x25519Shared(d.private, serverPub);
            var vm := VmResultOf(p, Inputs(e.username, e.license, serverRandom, d.sessionId, t2), true);
            && (c.Some? <==> shared.Some? && vm.Some?)
            && (c.Some? ==>
                  && c.value.serverPub == serverPub && c.value.serverRandom == serverRandom && c.value.salt == t2
                  && c.value.keys == DeriveKeys(p, HkdfExtract(p, t2, shared.value))
                  && vm == Some(c.value.vm))
  {
    hide Lawful, DeriveKeys, HkdfExtract, AeadSealed, Proof1, OutputOf, Proof1Bytes, VmResultOf;
  }

  // ---- the two proofs ---------------------------------------------------------------------------------------

  /** The first proof: license and outputs of the engine, and their MAC with label, username and session. */
  function FirstProof(p: Primitives, d: ClientDraws, e: Entry, c: Keyed): Bytes {
    var front := e.license + c.vm.digest + c.vm.stateHash + BigEndian(c.vm.pathId as nat, 4)
                 + BigEndian(c.vm.haltCode as nat, 4);
    front + p.hmac(c.keys.proof1, Ascii("RG6-PROOF1/v6") + BigEndian(|e.username|, 2) + e.username + front
                                  + c.serverRandom + d.sessionId + c.salt)
  }

  lemma FirstProofIs(p: Primitives, d: ClientDraws, e: Entry, c: Keyed)
    requires Lawful(p)
    ensures var x := OutputOf(c.vm);
            FirstProof(p, d, e, c) ==
            Proof1Bytes(e.license, x, Proof1(p, c.keys.proof1, e.username, e.license, x, c.serverRandom, d.sessionId,
                                             c.salt))
  {
    hide Lawful, Ascii, BigEndian;
    var path, halt := BigEndian(c.vm.pathId as nat, 4), BigEndian(c.vm.haltCode as nat, 4);
    var intro := Ascii("RG6-PROOF1/v6") + BigEndian(|e.username|, 2) + e.username;
    assert intro + (e.license + c.vm.digest + c.vm.stateHash + path + halt) ==
           intro + e.license + c.vm.digest + c.vm.stateHash + path + halt;
  }

  /** An accepted challenge is answered with the first proof, sealed at T2. */
  lemma FirstProofSent(p: Primitives, d: ClientDraws, e: Entry, c: Keyed)
    requires Lawful(p) && ClientSized(d) && |e.license| == 25
    requires KeyedBy(p, d, e, c.serverPub, c.serverRandom, c.salt) == Some(c)
    ensures var raw := Serialize(c.frame);
            && Labelled(raw, 3, d.sessionId, 2) && Authentic(p, c.salt, c.keys.mac, raw)
            && Plaintext(p, c.keys.c2s, raw) == Some(FirstProof(p, d, e, c))
  {
    FirstProofIs(p, d, e, c);
    KeyedFrame(p, d, e, c);
    Pow256Values();
    hide Lawful, Labelled, Authentic, Plaintext, FirstProof, KeyedBy, Serialize, AeadSealed, Pow256;
    SentBytes(p, c.salt, c.keys, c.keys.c2s, 3, d.sessionId, 2, d.nonce2, FirstProof(p, d, e, c));
  }

  lemma KeyedFrame(p: Primitives, d: ClientDraws, e: Entry, c: Keyed)
    requires Lawful(p) && KeyedBy(p, d, e, c.serverPub, c.serverRandom, c.salt) == Some(c)
    ensures var x := OutputOf(c.vm);
            c.frame == AeadSealed(p, c.salt, c.keys.mac, c.keys.c2s, 3, d.sessionId, 2, d.nonce2,
                                  Proof1Bytes(e.license, x, Proof1(p, c.keys.proof1, e.username, e.license, x,
                                                                   c.serverRandom, d.sessionId, c.salt)))
    ensures |c.vm.digest| == 32 && |c.vm.stateHash| == 32
  {
    BothVmsAgree(p, Inputs(e.username, e.license, c.serverRandom, d.sessionId, c.salt));
    hide Lawful, DeriveKeys, HkdfExtract, AeadSealed, Proof1, OutputOf, Proof1Bytes, VmResultOf;
  }

  // ---- the server's proof -----------------------------------------------------------------------------------

  /** T3 behind the bytes of the first proof. */
  function AfterProof(p: Primitives, c: Keyed): Bytes { p.sha256(c.salt + Serialize(c.frame)) }

  /** A reply the client accepts at T3: the server's MAC over T3, the client's own digest and the new challenge. */
  predicate ProvedBy(p: Primitives, c: Keyed, t3: Bytes, raw: Bytes) {
    && Authentic(p, t3, c.keys.mac, raw)
    && var b := Plaintext(p, c.keys.s2c, raw);
    && b.Some? && |b.value| == 48
    && b.value[..32] == p.hmac(c.keys.sproof1, Ascii("RG6-SPROOF1/v6") + t3 + c.vm.digest + b.value[32..48])
  }

  /** The second proof, over the challenge of the reply. */
  function SecondProof(p: Primitives, c: Keyed, challenge2: Bytes): Bytes {
    p.hmac(c.keys.proof2, Ascii("RG6-PROOF2/v6") + challenge2 + c.serverRandom + c.serverPub + c.vm.digest + c.salt)
  }

  /** The client accepts exactly the replies that prove the server, and answers with the second proof. */
  lemma ServerProofShows(p: Primitives, d: ClientDraws, c: Keyed, raw: Bytes)
    requires Lawful(p)
    ensures var t3, b := AfterProof(p, c), OnServerProof(p, d, c, raw);
            && (b.Some? <==> Framed(raw) && ProvedBy(p, c, t3, raw))
            && (b.Some? ==>
                  && b.value.challenge2 == Plaintext(p, c.keys.s2c, raw).value[32..48]
                  && b.value.t4 == p.sha256(t3 + raw)
                  && b.value.frame ==
                     AeadSealed(p, b.value.t4, c.keys.mac, c.keys.c2s, 5, d.sessionId, 3, d.nonce3,
                                SecondProof(p, c, b.value.challenge2)))
  {
    AcceptedBytes(raw);
    AbsorbedIs(p, c.salt, c.frame);
    var t3 := AfterProof(p, c);
    if Parse(raw).Some? { OpenedBytes(p, t3, c.keys, c.keys.s2c, raw); }
    var b := Plaintext(p, c.keys.s2c, raw);
    if b.Some? && |b.value| == 48 {
      ServerProofIs(p, c.keys.sproof1, t3, c.vm.digest, b.value[32..48]);
      SecondProofIs(p, c, b.value[32..48]);
    }
    hide Lawful, AeadOpened, AeadSealed, Absorbed, Authentic, Plaintext, ServerProof1, Proof2, SecondProof, Parse,
         Number, Ascii, Serialize;
  }

  lemma SecondProofIs(p: Primitives, c: Keyed, challenge2: Bytes)
    requires Lawful(p)
    ensures SecondProof(p, c, challenge2) ==
            Proof2(p, c.keys.proof2, challenge2, c.serverRandom, c.serverPub, c.vm.digest, c.salt)
  {
    hide Lawful, Ascii;
  }

  /** The second proof goes out sealed at T4. */
  lemma SecondProofSent(p: Primitives, d: ClientDraws, c: Keyed, raw: Bytes)
    requires Lawful(p) && ClientSized(d) && OnServerProof(p, d, c, raw).Some?
    ensures var b := OnServerProof(p, d, c, raw).value;
            var sent := Serialize(b.frame);
            && Labelled(sent, 5, d.sessionId, 3) && Authentic(p, b.t4, c.keys.mac, sent)
            && Plaintext(p, c.keys.c2s, sent) == Some(SecondProof(p, c, b.challenge2))
  {
    ServerProofShows(p, d, c, raw);
    Pow256Values();
    var b := OnServerProof(p, d, c, raw).value;
    assert |SecondProof(p, c, b.challenge2)| == 32;
    hide Lawful, OnServerProof, AeadSealed, Authentic, Plaintext, SecondProof, ProvedBy, Framed, Labelled, Serialize,
         Pow256, AfterProof;
    SentBytes(p, b.t4, c.keys, c.keys.c2s, 5, d.sessionId, 3, d.nonce3, SecondProof(p, c, b.challenge2));
  }

  // ---- the flag ---------------------------------------------------------------------------------------------

  /** The flag the client ends with: two layers opened, the inner one under the key of T5. */
  lemma SealedFlagShows(p: Primitives, c: Keyed, b: Proved, raw: Bytes)
    requires Lawful(p)
    ensures var t5 := p.sha256(b.t4 + Serialize(b.frame));
            var key := p.hmac(p.hmac(t5, c.keys.seal), Ascii("RG6 seal") + [1]);
            var blob := Plaintext(p, c.keys.s2c, raw);
            OnSealedFlag(p, c, b, raw) ==
            if !Framed(raw) || !Authentic(p, t5, c.keys.mac, raw) || blob.None? || |blob.value| < 40 then None
            else
              var x, n := blob.value, |blob.value| - 16;
              p.aeadDecrypt(key, x[..24], x[24..n], x[n..], t5)
  {
    AcceptedBytes(raw);
    AbsorbedIs(p, b.t4, b.frame);
    var t5 := p.sha256(b.t4 + Serialize(b.frame));
    if Parse(raw).Some? { OpenedBytes(p, t5, c.keys, c.keys.s2c, raw); }
    OneBlock(p, HkdfExtract(p, t5, c.keys.seal), Ascii("RG6 seal"));
    assert HkdfExtract(p, t5, c.keys.seal) == p.hmac(t5, c.keys.seal);
    hide Lawful, AeadOpened, Absorbed, Authentic, Plaintext, HkdfExtract, HkdfExpand, Parse, Number, Ascii, Serialize;
  }
}
