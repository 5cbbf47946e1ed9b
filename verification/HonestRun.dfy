/** The three stages of an honest run: the server answers, the client accepts, and both sides agree. */
module HonestRun {
  import opened ByteStrings
  import opened Crypto
  import opened FrameFormat
  import opened Transcripts
  import opened Kdf
  import opened Channel
  import opened Usernames
  import opened Licenses
  import opened VmInputs
  import opened ServerModel
  import opened ClientModel
  import Isa

  /** A canonical username and its own license. */
  ghost predicate Honest(p: Primitives, cfg: Config, e: Entry)
    requires Lawful(p)
  { Canonical(e.username) && e.license == Built(p, cfg.licenseSecret, e.username) }

  // ---- HELLO ------------------------------------------------------------------------------------------------

  lemma PublicSize(p: Primitives, key: Bytes)
    requires Lawful(p) && |key| == 32
    ensures |p.x25519Base(key)| == 32
  {}

  lemma HelloParses(p: Primitives, d: ClientDraws, username: Bytes)
    requires Lawful(p) && ClientSized(d) && |username| <= 64
    ensures |HelloBytes(p, d, username)| == 50 + |username|
    ensures ParseHello(HelloBytes(p, d, username)) == Some(HelloPayload(p.x25519Base(d.private), d.random, username))
  {
    hide Lawful, Number, BigEndian;
    PublicSize(p, d.private);
    LengthField(|username|);
    var b := HelloBytes(p, d, username);
    assert b[48..50] == BigEndian(|username|, 2) && b[50..50 + |username|] == username;
    assert b[..32] == p.x25519Base(d.private) && b[32..48] == d.random;
  }

  lemma LengthField(n: nat)
    requires n < 0x1_0000
    ensures Number(BigEndian(n, 2)) == n && n % 0x1_0000 == n
  {
    Pow256Values();
    NumberOfBigEndian(n, 2);
  }

  lemma HelloFrameShape(p: Primitives, d: ClientDraws, username: Bytes)
    requires Lawful(p) && ClientSized(d) && Canonical(username)
    ensures var f := HelloFrame(p, d, username);
            && WellFormed(f) && f.messageType == MT_HELLO && f.sessionId == d.sessionId && f.counter == 1
            && f.payload == HelloBytes(p, d, username)
            && Opened(p, Transcripts.Start(p), BootstrapMacKey(p), f) == Some(Absorbed(p, Transcripts.Start(p), f))
  {
    Pow256Values();
    HelloParses(p, d, username);
    hide Lawful, PlainSealed, Opened, Absorbed, HelloBytes, Transcripts.Start, BootstrapMacKey, Pow256;
    PlainRoundTrip(p, Transcripts.Start(p), BootstrapMacKey(p), MT_HELLO, d.sessionId, 1, d.nonce1,
                   HelloBytes(p, d, username));
  }

  /** The server's session and the client agree on T2, the keys, and the server's half. */
  ghost predicate AgreeOnKeys(s: Session, d: ClientDraws, e: Entry, c: Keyed) {
    && s.sessionId == d.sessionId && s.username == e.username && s.keys == Some(c.keys)
    && s.transcript == s.salt == c.salt && s.serverRandom == c.serverRandom && s.serverPub == c.serverPub
    && |c.serverRandom| == 16 && s.clientCounter == 1 && s.serverCounter == 1
  }

  lemma SharedAgrees(p: Primitives, a: Bytes, b: Bytes)
    requires Lawful(p) && |a| == |b| == 32
    ensures p.x25519Shared(a, p.x25519Base(b)).Some?
        && p.x25519Shared(a, p.x25519Base(b)) == p.x25519Shared(b, p.x25519Base(a))
  {}

  lemma SignatureVerifies(p: Primitives, seed: Bytes, state: Bytes, pub: Bytes, random: Bytes)
    requires Lawful(p)
    ensures p.verify(p.signPublic(seed), SignedData(state, pub, random),
                     ChallengeSignature(p, seed, state, pub, random))
  {
    hide SignedData;
  }

  /** The session on which the challenge is built. */
  function Greeted(p: Primitives, d: ClientDraws, e: Entry): Session {
    Fresh(d.sessionId).(clientCounter := 1, username := e.username, clientPub := p.x25519Base(d.private))
  }

  /** The server accepts the HELLO of an honest client and goes on to its challenge. */
  lemma HelloAccepted(p: Primitives, cfg: Config, ds: Draws, d: ClientDraws, e: Entry)
    requires Lawful(p) && ClientSized(d) && Canonical(e.username)
    ensures var f := HelloFrame(p, d, e.username);
            var r := Challenged(p, cfg, ds, Greeted(p, d, e), Absorbed(p, Transcripts.Start(p), f));
            Hello(p, cfg, ds, Fresh(d.sessionId), f) ==
            match r case None => Answer(Greeted(p, d, e), None) case Some(x) => Answer(x.0, Some(x.1))
  {
    hide Lawful, Challenged, Absorbed, Opened, ParseHello, Normalized, HelloFrame, HelloBytes, Transcripts.Start,
         BootstrapMacKey,
         WellFormed;
    HelloFrameShape(p, d, e.username);
    HelloParses(p, d, e.username);
    NormalizedIsCanonical(e.username);
  }

  /** The challenge frame, and what the client finds in it. */
  lemma ChallengeIs(p: Primitives, cfg: Config, ds: Draws, s: Session, t1: Bytes, private: Bytes)
    requires Lawful(p) && Sized(ds) && |private| == 32 && s.clientPub == p.x25519Base(private)
    requires |s.sessionId| == 16 && s.serverCounter == 0
    ensures var r, pub := Challenged(p, cfg, ds, s, t1), p.x25519Base(ds.private);
            && r.Some? && p.x25519Shared(private, pub).Some?
            && var (s', g) := r.value;
            && Parse(Serialize(g)) == Some(g) && Opened(p, t1, BootstrapMacKey(p), g) == Some(Absorbed(p, t1, g))
            && g.payload == pub + ds.random + ChallengeSignature(p, cfg.signSeed, t1, pub, ds.random)
            && var t2 := Absorbed(p, t1, g);
            && s' == s.(serverCounter := 1, prk := s'.prk, transcript := t2, salt := t2, serverRandom := ds.random,
                        serverPub := pub,
                        keys := Some(DeriveKeys(p, HkdfExtract(p, t2, p.x25519Shared(private, pub).value))))
  {
    hide Lawful, Absorbed, Opened, PlainSealed, BootstrapMacKey, ChallengeSignature, DeriveKeys, HkdfExtract, Parse,
         Serialize, Pow256;
    var pub := p.x25519Base(ds.private);
    SharedAgrees(p, ds.private, private);
    PublicSize(p, ds.private);
    var payload := pub + ds.random + ChallengeSignature(p, cfg.signSeed, t1, pub, ds.random);
    PlainRoundTrip(p, t1, BootstrapMacKey(p), MT_SERVER_CHALLENGE, s.sessionId, 1, ds.nonce, payload);
    Pow256Values();
    ParseSerialize(PlainSealed(p, t1, BootstrapMacKey(p), MT_SERVER_CHALLENGE, s.sessionId, 1, ds.nonce, payload));
  }

  /** After HELLO both sides hold the same T2 and the same seven keys, and the client's VM has run. */
  lemma HelloStage(p: Primitives, cfg: Config, ds: Draws, d: ClientDraws, e: Entry)
    requires Lawful(p) && Sized(ds) && ClientSized(d) && Canonical(e.username)
    ensures var a := Hello(p, cfg, ds, Fresh(d.sessionId), HelloFrame(p, d, e.username));
            && a.frame.Some?
            && var c := OnChallenge(p, p.signPublic(cfg.signSeed), d, e, Serialize(a.frame.value));
            && c.Some? && AgreeOnKeys(a.session, d, e, c.value)
            && KeyedBy(p, d, e, c.value.serverPub, c.value.serverRandom, c.value.salt) == c
  {
    hide Lawful, Absorbed, Opened, Challenged, Hello, BootstrapMacKey, ChallengeSignature, SignedData, DeriveKeys,
         HkdfExtract,
         Parse, Serialize, VmResultOf, HelloFrame, Transcripts.Start, AeadSealed, Proof1, Canonical;
    HelloAccepted(p, cfg, ds, d, e);
    var t1 := Absorbed(p, Transcripts.Start(p), HelloFrame(p, d, e.username));
    ChallengeIs(p, cfg, ds, Greeted(p, d, e), t1, d.private);
    var g := Challenged(p, cfg, ds, Greeted(p, d, e), t1).value.1;
    var pub := p.x25519Base(ds.private);
    PublicSize(p, ds.private);
    SignatureVerifies(p, cfg.signSeed, t1, pub, ds.random);
    assert g.payload[..32] == pub && g.payload[32..48] == ds.random
        && g.payload[48..112] == ChallengeSignature(p, cfg.signSeed, t1, pub, ds.random);
    BothVmsAgree(p, Inputs(e.username, e.license, ds.random, d.sessionId, Absorbed(p, t1, g)));
  }

  // ---- the exchange -----------------------------------------------------------------------------------------

  lemma NumberField(n: nat)
    requires n < 0x1_0000_0000
    ensures Number(BigEndian(n, 4)) == n
  {
    Pow256Values();
    NumberOfBigEndian(n, 4);
  }

  lemma Proof1Parses(license: Bytes, vm: VmOutput, proof1: Bytes)
    requires |license| == 25 && |vm.digest| == |vm.stateHash| == |proof1| == 32
    requires vm.pathId < 0x1_0000_0000 && vm.haltCode < 0x1_0000_0000
    ensures |Proof1Bytes(license, vm, proof1)| == PROOF1_SIZE
    ensures ParseProof1(Proof1Bytes(license, vm, proof1)) == Proof1Payload(license, vm, proof1)
  {
    hide BigEndian, Number;
    NumberField(vm.pathId);
    NumberField(vm.haltCode);
    var b := Proof1Bytes(license, vm, proof1);
    assert b[..25] == license && b[25..57] == vm.digest && b[57..89] == vm.stateHash;
    assert b[89..93] == BigEndian(vm.pathId, 4) && b[93..97] == BigEndian(vm.haltCode, 4) && b[97..129] == proof1;
  }

  lemma OutputBounds(vm: Isa.VmResult)
    ensures OutputOf(vm).pathId < 0x1_0000_0000 && OutputOf(vm).haltCode < 0x1_0000_0000
  {}

  /** What the client's proof-1 frame carries meets every demand of the server. */
  lemma HonestProof(p: Primitives, cfg: Config, s: Session, d: ClientDraws, e: Entry, c: Keyed)
    requires Lawful(p) && Honest(p, cfg, e) && ClientSized(d) && AgreeOnKeys(s, d, e, c)
    requires KeyedBy(p, d, e, c.serverPub, c.serverRandom, c.salt) == Some(c)
    ensures var x := Proof1Payload(e.license, OutputOf(c.vm),
                                   Proof1(p, c.keys.proof1, e.username, e.license, OutputOf(c.vm),
                                                                    c.serverRandom, d.sessionId, c.salt));
            && c.frame == AeadSealed(p, c.salt, c.keys.mac, c.keys.c2s, MT_CLIENT_PROOF_1, d.sessionId, 2, d.nonce2,
                                     Proof1Bytes(x.license, x.vm, x.proof1))
            && |Proof1Bytes(x.license, x.vm, x.proof1)| == PROOF1_SIZE
            && ParseProof1(Proof1Bytes(x.license, x.vm, x.proof1)) == x
            && Proves(p, cfg, s, c.keys, x)
  {
    hide Lawful, VmResultOf, Accepts, Proof1, AeadSealed, OutputOf, DeriveKeys, HkdfExtract, ParseProof1, Proof1Bytes,
         Built, Canonical;
    BothVmsAgree(p, InputsOf(s, e.license));
    BuiltIsAccepted(p, cfg.licenseSecret, e.username);
    OutputBounds(c.vm);
    OutputFields(c.vm);
    Proof1Parses(e.license, OutputOf(c.vm), Proof1(p, c.keys.proof1, e.username, e.license, OutputOf(c.vm),
                                                   c.serverRandom, d.sessionId, c.salt));
  }

  lemma OutputFields(vm: Isa.VmResult)
    ensures OutputOf(vm).digest == vm.digest && OutputOf(vm).stateHash == vm.stateHash
  {}

  /** The session and the client agree on T4 and on everything proof 2 is made of. */
  ghost predicate AgreeOnProof(p: Primitives, s: Session, d: ClientDraws, c: Keyed, b: Proved)
    requires Lawful(p)
  {
    && s.sessionId == d.sessionId && s.keys == Some(c.keys) && s.transcript == b.t4 && s.salt == c.salt
    && s.serverRandom == c.serverRandom && s.serverPub == c.serverPub && s.challenge2 == b.challenge2
    && s.vmDigest == c.vm.digest && s.proof1Ok && s.clientCounter == 2 && s.serverCounter == 2
    && b.frame == AeadSealed(p, b.t4, c.keys.mac, c.keys.c2s, MT_CLIENT_PROOF_2, d.sessionId, 3, d.nonce3,
                             Proof2(p, c.keys.proof2, b.challenge2, c.serverRandom, c.serverPub, c.vm.digest, c.salt))
  }

  /** A sealed frame of modest size survives the wire. */
  lemma SealedSurvives(p: Primitives, state: Bytes, mac: Bytes, key: Bytes, messageType: byte, id: Bytes, counter: nat,
                       nonce: Bytes, plaintext: Bytes)
    requires Lawful(p) && |id| == 16 && |nonce| == 24 && counter < 0x1_0000 && |plaintext| <= 1000
    ensures var f := AeadSealed(p, state, mac, key, messageType, id, counter, nonce, plaintext);
            && WellFormed(f) && Parse(Serialize(f)) == Some(f)
            && f.messageType == messageType && f.sessionId == id && f.counter == counter
            && AeadOpened(p, state, mac, key, f) == Some(Delivery(Absorbed(p, state, f), plaintext))
  {
    hide Lawful, AeadSealed, AeadOpened, Absorbed, Parse, Serialize, Pow256;
    AeadRoundTrip(p, state, mac, key, messageType, id, counter, nonce, plaintext);
    Pow256Values();
    ParseSerialize(AeadSealed(p, state, mac, key, messageType, id, counter, nonce, plaintext));
  }

  /** The server's answer to an honest exchange. */
  function HonestAnswer(p: Primitives, ds: Draws, s: Session, c: Keyed): Frame
    requires Lawful(p)
  {
    var t3 := Absorbed(p, c.salt, c.frame);
    AeadSealed(p, t3, c.keys.mac, c.keys.s2c, MT_SERVER_PROOF_1, s.sessionId, 2, ds.nonce,
               ServerProof1(p, c.keys.sproof1, t3, c.vm.digest, ds.random) + ds.random)
  }

  lemma ExchangeAnswers(p: Primitives, cfg: Config, ds: Draws, s: Session, d: ClientDraws, e: Entry, c: Keyed)
    requires Lawful(p) && Sized(ds) && Honest(p, cfg, e) && ClientSized(d) && AgreeOnKeys(s, d, e, c)
    requires KeyedBy(p, d, e, c.serverPub, c.serverRandom, c.salt) == Some(c)
    ensures var g := HonestAnswer(p, ds, s, c);
            && WellFormed(c.frame) && c.frame.messageType == MT_CLIENT_PROOF_1 && c.frame.sessionId == d.sessionId
            && Exchange(p, cfg, ds, s, c.frame) ==
               Answer(s.(clientCounter := 2, serverCounter := 2,
                         transcript := Absorbed(p, Absorbed(p, c.salt, c.frame), g),
                         challenge2 := ds.random, vmDigest := c.vm.digest, proof1Ok := true), Some(g))
  {
    hide Lawful, Honest, Proves, AeadSealed, AeadOpened, Absorbed, ServerProof1, ParseProof1, Proof1, Proof1Bytes,
         OutputOf, KeyedBy, WellFormed;
    HonestProof(p, cfg, s, d, e, c);
    OutputFields(c.vm);
    ProvesIgnoresCounter(p, cfg, s, c.keys, 2);
    SealedSurvives(p, c.salt, c.keys.mac, c.keys.c2s, MT_CLIENT_PROOF_1, d.sessionId, 2, d.nonce2,
                   Proof1Bytes(e.license, OutputOf(c.vm),
                               Proof1(p, c.keys.proof1, e.username, e.license, OutputOf(c.vm),
                                                                 c.serverRandom, d.sessionId, c.salt)));
  }

  lemma ProvesIgnoresCounter(p: Primitives, cfg: Config, s: Session, keys: Keys, n: nat)
    requires Lawful(p)
    ensures forall x :: Proves(p, cfg, s.(clientCounter := n), keys, x) == Proves(p, cfg, s, keys, x)
  {
    hide Lawful, VmResultOf, Accepts, Proof1, OutputOf;
  }

  /** The exchange of an honest client is answered, and both sides agree on T4. */
  lemma ExchangeStage(p: Primitives, cfg: Config, ds: Draws, s: Session, d: ClientDraws, e: Entry, c: Keyed)
    requires Lawful(p) && Sized(ds) && Honest(p, cfg, e) && ClientSized(d) && AgreeOnKeys(s, d, e, c)
    requires KeyedBy(p, d, e, c.serverPub, c.serverRandom, c.salt) == Some(c)
    ensures var a := Exchange(p, cfg, ds, s, c.frame);
            && WellFormed(c.frame) && c.frame.messageType == MT_CLIENT_PROOF_1 && c.frame.sessionId == d.sessionId
            && a.frame.Some?
            && var b := OnServerProof(p, d, c, Serialize(a.frame.value));
            && b.Some? && AgreeOnProof(p, a.session, d, c, b.value)
  {
    hide Lawful, Honest, Exchange, AeadSealed, AeadOpened, Absorbed, ServerProof1, Parse, Serialize, KeyedBy,
         WellFormed, Proof2;
    ExchangeAnswers(p, cfg, ds, s, d, e, c);
    var t3 := Absorbed(p, c.salt, c.frame);
    var sproof := ServerProof1(p, c.keys.sproof1, t3, c.vm.digest, ds.random);
    SealedSurvives(p, t3, c.keys.mac, c.keys.s2c, MT_SERVER_PROOF_1, s.sessionId, 2, ds.nonce, sproof + ds.random);
    assert (sproof + ds.random)[..32] == sproof && (sproof + ds.random)[32..48] == ds.random;
  }

  // ---- the flag ---------------------------------------------------------------------------------------------

  lemma FinalizeAnswers(p: Primitives, ds: Draws, s: Session, d: ClientDraws, c: Keyed, b: Proved)
    requires Lawful(p) && Sized(ds) && ClientSized(d) && AgreeOnProof(p, s, d, c, b)
    ensures var t5 := Absorbed(p, b.t4, b.frame);
            var g := AeadSealed(p, t5, c.keys.mac, c.keys.s2c, MT_SEALED_FLAG, s.sessionId, 3, ds.nonce,
                                SealedBlob(p, c.keys, t5, ds.sealNonce));
            && WellFormed(b.frame) && b.frame.messageType == MT_CLIENT_PROOF_2 && b.frame.sessionId == d.sessionId
            && Finalize(p, ds, s, b.frame) ==
               Answer(s.(clientCounter := 3, serverCounter := 3, transcript := Absorbed(p, t5, g)), Some(g))
  {
    hide Lawful, AeadSealed, AeadOpened, Absorbed, SealedBlob, WellFormed, Proof2;
    SealedSurvives(p, b.t4, c.keys.mac, c.keys.c2s, MT_CLIENT_PROOF_2, d.sessionId, 3, d.nonce3,
                   Proof2(p, c.keys.proof2, b.challenge2, c.serverRandom, c.serverPub, c.vm.digest, c.salt));
  }

  /** The inner layer opens to the flag. */
  lemma BlobOpens(p: Primitives, keys: Keys, t5: Bytes, sealNonce: Bytes)
    requires Lawful(p) && |sealNonce| == 24
    ensures var blob := SealedBlob(p, keys, t5, sealNonce);
            var n := |blob| - 16;
            && 40 <= |blob| <= 1000
            && AeadDecrypt(p, SealKey(p, keys, t5), blob[..24], blob[24..n], blob[n..], t5) == Some(FLAG)
  {
    hide Lawful, AeadEncrypt, AeadDecrypt, SealKey, Ascii;
    DecryptEncrypted(p, SealKey(p, keys, t5), sealNonce, FLAG, t5);
    var c := AeadEncrypt(p, SealKey(p, keys, t5), sealNonce, FLAG, t5);
    var blob := sealNonce + c.0 + c.1;
    assert blob[..24] == sealNonce && blob[24..|blob| - 16] == c.0 && blob[|blob| - 16..] == c.1;
  }

  /** The honest finalize is answered with what the client opens to the flag; both end in one transcript. */
  lemma FinalizeStage(p: Primitives, ds: Draws, s: Session, d: ClientDraws, c: Keyed, b: Proved)
    requires Lawful(p) && Sized(ds) && ClientSized(d) && AgreeOnProof(p, s, d, c, b)
    ensures var a := Finalize(p, ds, s, b.frame);
            && WellFormed(b.frame) && b.frame.messageType == MT_CLIENT_PROOF_2 && b.frame.sessionId == d.sessionId
            && a.frame.Some?
            && OnSealedFlag(p, c, b, Serialize(a.frame.value)) == Some(FLAG)
            && Parse(Serialize(a.frame.value)) == a.frame
            && a.session.transcript == Absorbed(p, Absorbed(p, b.t4, b.frame), a.frame.value)
  {
    hide Lawful, Finalize, AeadSealed, AeadOpened, Absorbed, SealedBlob, Parse, Serialize, WellFormed, Proof2,
         AeadDecrypt, SealKey, Ascii;
    FinalizeAnswers(p, ds, s, d, c, b);
    var t5 := Absorbed(p, b.t4, b.frame);
    BlobOpens(p, c.keys, t5, ds.sealNonce);
    SealedSurvives(p, t5, c.keys.mac, c.keys.s2c, MT_SEALED_FLAG, s.sessionId, 3, ds.nonce,
                   SealedBlob(p, c.keys, t5, ds.sealNonce));
  }
}
