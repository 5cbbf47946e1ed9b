/**
 What one answered request shows, said of its bytes and the primitives alone: none of the predicates below
 names a step of the server.
 */
module Evidence {
  import opened ByteStrings
  import opened Crypto
  import opened FrameFormat
  import opened Transcripts
  import opened Kdf
  import opened Channel
  import opened Usernames
  import opened Licenses
  import opened VmInputs
  import opened ServerModel
  import opened ServerRuns
  import Isa

  // ---- frames as bytes --------------------------------------------------------------------------------------

  /** The last 32 bytes are the MAC over a transcript and all the others. */
  predicate Authentic(p: Primitives, state: Bytes, macKey: Bytes, raw: Bytes) {
    |raw| >= 106 && raw[|raw| - 32..] == p.hmac(macKey, state + raw[..|raw| - 32])
  }

  /** The first 58 bytes are the associated data, with the nonce from byte 30 on; the tag stands before the MAC. */
  function Plaintext(p: Primitives, aeadKey: Bytes, raw: Bytes): Option<Bytes> {
    var n := |raw|;
    if n < 106 then None
    else p.aeadDecrypt(aeadKey, raw[30..54], raw[58..n - 48], raw[n - 48..n - 32], raw[..58])
  }

  /** Type, session id and counter, where they stand in a frame. */
  predicate Labelled(raw: Bytes, messageType: byte, id: Bytes, counter: nat) {
    |raw| >= 106 && raw[5] == messageType && raw[6..22] == id && Number(raw[22..30]) == counter
  }

  lemma OpenedBytes(p: Primitives, state: Bytes, keys: Keys, aeadKey: Bytes, raw: Bytes)
    requires Lawful(p) && Parse(raw).Some?
    ensures var got := AeadOpened(p, state, keys.mac, aeadKey, Parse(raw).value);
            && (got.Some? <==> Authentic(p, state, keys.mac, raw) && Plaintext(p, aeadKey, raw).Some?)
            && (got.Some? ==>
                  got.value == Delivery(p.sha256(state + raw), Plaintext(p, aeadKey, raw).value))
  {
    DeliversExactly(p, state, keys.mac, aeadKey, raw);
    hide Lawful, Parse, AeadOpened;
  }

  /** The bytes of an encrypted frame: type, session id and counter in place, and the plaintext inside. */
  lemma SealedBytes(p: Primitives, state: Bytes, keys: Keys, aeadKey: Bytes, messageType: byte, id: Bytes, counter: nat,
                    nonce: Bytes, plaintext: Bytes)
    requires Lawful(p)
    requires WellFormed(AeadSealed(p, state, keys.mac, aeadKey, messageType, id, counter, nonce, plaintext))
    ensures var raw := Serialize(AeadSealed(p, state, keys.mac, aeadKey, messageType, id, counter, nonce, plaintext));
            && Labelled(raw, messageType, id, counter)
            && Authentic(p, state, keys.mac, raw) && Plaintext(p, aeadKey, raw) == Some(plaintext)
  {
    hide Lawful, AeadSealed, AeadOpened, Absorbed, Parse, Serialize, WellFormed;
    var f := AeadSealed(p, state, keys.mac, aeadKey, messageType, id, counter, nonce, plaintext);
    AeadRoundTrip(p, state, keys.mac, aeadKey, messageType, id, counter, nonce, plaintext);
    ParseSerialize(f);
    SerializedFields(f);
    FieldsOf(Serialize(f));
    OpenedBytes(p, state, keys, aeadKey, Serialize(f));
  }

  /** The same from the sizes of the parts. */
  lemma SentBytes(p: Primitives, state: Bytes, keys: Keys, aeadKey: Bytes, messageType: byte, id: Bytes, counter: nat,
                  nonce: Bytes, plaintext: Bytes)
    requires Lawful(p) && |id| == 16 && counter < Pow256(8) && |nonce| == 24 && |plaintext| <= MAX_PAYLOAD
    ensures var raw := Serialize(AeadSealed(p, state, keys.mac, aeadKey, messageType, id, counter, nonce, plaintext));
            && Labelled(raw, messageType, id, counter)
            && Authentic(p, state, keys.mac, raw) && Plaintext(p, aeadKey, raw) == Some(plaintext)
  {
    hide Lawful, AeadSealed, Labelled, Authentic, Plaintext, Serialize, Pow256;
    AeadRoundTrip(p, state, keys.mac, aeadKey, messageType, id, counter, nonce, plaintext);
    SealedBytes(p, state, keys, aeadKey, messageType, id, counter, nonce, plaintext);
  }

  // ---- HELLO ------------------------------------------------------------------------------------------------

  /** The payload of a frame in the clear. */
  function Body(raw: Bytes): Bytes { if |raw| < 106 then [] else raw[58..|raw| - 48] }

  /** Client key and random are 48 bytes; two more give the length of the name behind them. */
  function NameIn(raw: Bytes): Option<Bytes> {
    var b := Body(raw);
    if |b| < 50 || |b| < 50 + Number(b[48..50]) then None else Normalized(b[50..50 + Number(b[48..50])])
  }

  /** The transcript in front of a HELLO, and the key both sides know before there is a secret. */
  function Seed(p: Primitives): Bytes { p.sha256(Ascii("RG6-TRANSCRIPT/v6")) }
  function PublicKey(p: Primitives): Bytes { p.sha256(Ascii("RG6-BOOTSTRAP-MAC/v6")) }

  /** All that the bytes of an answered HELLO show, given the server's ephemeral private key. */
  predicate ShowsName(p: Primitives, d: Draws, raw: Bytes) {
    && Authentic(p, Seed(p), PublicKey(p), raw) && NameIn(raw).Some?
    && p.x25519Shared(d.private, Body(raw)[..32]).Some?
  }

  /** The seven keys of a shared secret and T2. */
  predicate KeysFrom(p: Primitives, t2: Bytes, shared: Bytes, keys: Keys) {
    var prk := p.hmac(t2, shared);
    keys == Keys(p.hmac(prk, Ascii("RG6 c2s aead") + [1]), p.hmac(prk, Ascii("RG6 s2c aead") + [1]),
                 p.hmac(prk, Ascii("RG6 transcript mac") + [1]), p.hmac(prk, Ascii("RG6 client proof1") + [1]),
                 p.hmac(prk, Ascii("RG6 server proof1") + [1]), p.hmac(prk, Ascii("RG6 client proof2") + [1]),
                 p.hmac(prk, Ascii("RG6 final seal") + [1]))
  }

  /** What HELLO and reply settle for the session: the seven keys come from the shared secret and T2. */
  predicate SettledBy(p: Primitives, d: Draws, raw: Bytes, reply: Bytes, s: Session) {
    && ShowsName(p, d, raw) && s.clientPub == Body(raw)[..32] && Some(s.username) == NameIn(raw)
    && s.serverPub == p.x25519Base(d.private) && s.serverRandom == d.random
    && s.salt == p.sha256(p.sha256(Seed(p) + raw) + reply)
    && s.keys.Some? && KeysFrom(p, s.salt, p.x25519Shared(d.private, s.clientPub).value, s.keys.value)
  }

  /** The reply to a HELLO: public key, random and the signature over T1 and both. */
  predicate ChallengesWith(p: Primitives, cfg: Config, d: Draws, raw: Bytes, reply: Bytes) {
    var t1 := p.sha256(Seed(p) + raw);
    var pub := p.x25519Base(d.private);
    && |raw| >= 106 && Authentic(p, t1, PublicKey(p), reply) && Labelled(reply, 2, raw[6..22], 1)
    && Body(reply) == pub + d.random
                      + p.sign(cfg.signSeed, Ascii("RG6-SERVER-CHALLENGE/v6") + t1 + pub + d.random)
  }

  lemma NamesAre(p: Primitives)
    requires Lawful(p)
    ensures Transcripts.Start(p) == Seed(p) && BootstrapMacKey(p) == PublicKey(p)
  {
    hide Lawful, Ascii;
  }

  lemma ParsedName(raw: Bytes)
    requires Parse(raw).Some?
    ensures var h := ParseHello(Parse(raw).value.payload);
            && NameIn(raw) == (match h case None => None case Some(x) => Normalized(x.username))
            && (h.Some? ==> h.value.clientPub == Body(raw)[..32])
  {
    FieldsOf(raw);
    hide Parse, Number, PreMac, Header, Serialize, Normalized;
  }

  lemma ClearBytes(p: Primitives, state: Bytes, macKey: Bytes, messageType: byte, id: Bytes, counter: nat,
                   nonce: Bytes, payload: Bytes)
    requires Lawful(p) && WellFormed(PlainSealed(p, state, macKey, messageType, id, counter, nonce, payload))
    ensures var raw := Serialize(PlainSealed(p, state, macKey, messageType, id, counter, nonce, payload));
            && Authentic(p, state, macKey, raw) && Labelled(raw, messageType, id, counter) && Body(raw) == payload
  {
    hide Lawful, PlainSealed, Opened, Absorbed, Parse, Serialize, WellFormed;
    var f := PlainSealed(p, state, macKey, messageType, id, counter, nonce, payload);
    PlainRoundTrip(p, state, macKey, messageType, id, counter, nonce, payload);
    ParseSerialize(f);
    FieldsOf(Serialize(f));
    OpensExactly(p, state, macKey, Serialize(f));
  }

  /** The same from the sizes of the parts. */
  lemma ClearFrame(p: Primitives, state: Bytes, macKey: Bytes, messageType: byte, id: Bytes, counter: nat,
                   nonce: Bytes, payload: Bytes)
    requires Lawful(p) && |id| == 16 && counter < Pow256(8) && |nonce| == 24 && |payload| <= MAX_PAYLOAD
    ensures var raw := Serialize(PlainSealed(p, state, macKey, messageType, id, counter, nonce, payload));
            Authentic(p, state, macKey, raw) && Labelled(raw, messageType, id, counter) && Body(raw) == payload
  {
    hide Lawful, Labelled, Authentic, Body, Serialize, Pow256, PreMac;
    ClearBytes(p, state, macKey, messageType, id, counter, nonce, payload);
  }

  /** The challenge, from the bytes of the HELLO it answers. */
  lemma ChallengedShows(p: Primitives, cfg: Config, d: Draws, s: Session, raw: Bytes)
    requires Lawful(p) && Sized(d) && |raw| >= 106 && s.sessionId == raw[6..22] && s.serverCounter == 0
    requires ShowsName(p, d, raw) && s.clientPub == Body(raw)[..32] && Some(s.username) == NameIn(raw)
    ensures var t1 := p.sha256(Seed(p) + raw);
            && |t1| == 32
            && var r := Challenged(p, cfg, d, s, t1);
            && r.Some? && r.value.0.sessionId == s.sessionId
            && SettledBy(p, d, raw, Serialize(r.value.1), r.value.0)
            && ChallengesWith(p, cfg, d, raw, Serialize(r.value.1))
  {
    var t1 := p.sha256(Seed(p) + raw);
    NamesAre(p);
    Pow256Values();
    ChallengedShape(p, cfg, d, s, t1);
    hide Lawful, Authentic, Body, NameIn, Seed, PublicKey, PlainSealed, DeriveKeys, HkdfExtract, BootstrapMacKey,
         Serialize, WellFormed, Pow256, Ascii, Number;
    var (s', g) := Challenged(p, cfg, d, s, t1).value;
    var pub := p.x25519Base(d.private);
    ClearBytes(p, t1, PublicKey(p), 2, s.sessionId, 1, d.nonce,
               pub + d.random + ChallengeSignature(p, cfg.signSeed, t1, pub, d.random));
    KeysAre(p, s'.salt, p.x25519Shared(d.private, s.clientPub).value);
  }

  /** A HELLO is answered exactly when its counter is positive and its bytes show a name and a usable key. */
  lemma HelloShows(p: Primitives, cfg: Config, d: Draws, raw: Bytes)
    requires Lawful(p) && Sized(d) && Parse(raw).Some?
    ensures |raw| >= 106
    ensures var a := Hello(p, cfg, d, Fresh(raw[6..22]), Parse(raw).value);
            && a.session.sessionId == raw[6..22]
            && (a.frame.Some? <==> Number(raw[22..30]) > 0 && ShowsName(p, d, raw))
            && (a.frame.Some? ==>
                  && SettledBy(p, d, raw, Serialize(a.frame.value), a.session)
                  && ChallengesWith(p, cfg, d, raw, Serialize(a.frame.value)))
            && (a.frame.None? ==> a.session.keys.None?)
  {
    FieldsOf(raw);
    NamesAre(p);
    ParsedName(raw);
    OpensExactly(p, Seed(p), PublicKey(p), raw);
    var f := Parse(raw).value;
    assert Fresh(raw[6..22]).clientCounter == 0 && Fresh(raw[6..22]).serverCounter == 0;
    hide Lawful, Body, NameIn, Seed, PublicKey, Challenged, Opened, BootstrapMacKey, Transcripts.Start, ParseHello,
         Serialize, Number, SettledBy, ChallengesWith, PreMac, Header, Parse, Normalized, Sized;
    var a := Hello(p, cfg, d, Fresh(raw[6..22]), f);
    if f.counter > 0 && Authentic(p, Seed(p), PublicKey(p), raw) && NameIn(raw).Some? {
      var s := Fresh(raw[6..22]).(clientCounter := f.counter, username := NameIn(raw).value,
                                  clientPub := Body(raw)[..32]);
      if ShowsName(p, d, raw) {
        ChallengedShows(p, cfg, d, s, raw);
      } else {
        NoSecretNoChallenge(p, cfg, d, s, p.sha256(Seed(p) + raw));
      }
    }
  }

  lemma NoSecretNoChallenge(p: Primitives, cfg: Config, d: Draws, s: Session, t1: Bytes)
    requires Lawful(p) && p.x25519Shared(d.private, s.clientPub).None?
    ensures Challenged(p, cfg, d, s, t1).None?
  {
    hide Lawful;
  }

  // ---- the exchange -----------------------------------------------------------------------------------------

  /** A structure of version 6 with the fragment of the username, the parity and the checksum in place. */
  predicate Licensed(p: Primitives, cfg: Config, username: Bytes, st: Bytes)
    requires |st| == 25
  {
    && st[0] == 6 && st[1..5] == p.blake2b(username, Ascii("RG6-LICENSE-FRAGMENT/v6"), 4)
    && st[17] == Parity(st[..17])
    && st[21..25] == p.blake2b(Ascii("RG6-LICENSE-CHECKSUM/v6") + st[..21], cfg.licenseSecret, 4)
  }

  /** Bytes 25 to 96 are what the server's engine makes of the session's inputs and the license. */
  predicate Computed(p: Primitives, s: Session, b: Bytes)
    requires Lawful(p) && |b| == 129
  {
    var mem := PackInputs(p, Inputs(s.username, b[..25], s.serverRandom, s.sessionId, s.salt));
    var r := Isa.ResultOf(p, Code(), mem, false);
    && r.Some? && b[25..57] == r.value.digest && b[57..89] == r.value.stateHash
    && Number(b[89..93]) == r.value.pathId as nat && Number(b[93..97]) == r.value.haltCode as nat
  }

  /** The last 32 bytes are the MAC over label, username, everything in front of them and the session. */
  predicate Tied(p: Primitives, s: Session, keys: Keys, b: Bytes)
    requires |b| == 129
  {
    b[97..129] == p.hmac(keys.proof1, Ascii("RG6-PROOF1/v6") + BigEndian(|s.username|, 2) + s.username + b[..97]
                                      + s.serverRandom + s.sessionId + s.salt)
  }

  /** All that the bytes of an answered exchange show. */
  predicate ShowsLicense(p: Primitives, cfg: Config, s: Session, raw: Bytes)
    requires Lawful(p)
  {
    && s.keys.Some? && Authentic(p, s.transcript, s.keys.value.mac, raw)
    && var b := Plaintext(p, s.keys.value.c2s, raw);
    && b.Some? && |b.value| == 129
    && Licensed(p, cfg, s.username, b.value[..25]) && Computed(p, s, b.value) && Tied(p, s, s.keys.value, b.value)
  }

  /** The VM digest inside an exchange. */
  function DigestIn(p: Primitives, s: Session, raw: Bytes): Bytes {
    if s.keys.None? then []
    else
      var b := Plaintext(p, s.keys.value.c2s, raw);
      if b.None? || |b.value| < 57 then [] else b.value[25..57]
  }

  lemma AcceptsBytes(p: Primitives, cfg: Config, username: Bytes, st: Bytes)
    requires Lawful(p) && |st| == 25
    ensures Accepts(p, cfg.licenseSecret, username, st) <==> Licensed(p, cfg, username, st)
  {
    hide Lawful, Ascii, Parity;
  }

  lemma Proof1Input(p: Primitives, s: Session, keys: Keys, b: Bytes)
    requires Lawful(p) && |b| == 129
    ensures var x := ParseProof1(b);
            x.proof1 == Proof1(p, keys.proof1, s.username, x.license, x.vm, s.serverRandom, s.sessionId, s.salt)
            <==> Tied(p, s, keys, b)
  {
    hide Lawful, Number, BigEndian, Ascii;
    BigEndianOfNumber(b[89..93]);
    BigEndianOfNumber(b[93..97]);
    var front := Ascii("RG6-PROOF1/v6") + BigEndian(|s.username|, 2) + s.username;
    assert front + b[..25] + b[25..57] + b[57..89] + b[89..93] + b[93..97] == front + b[..97];
  }

  lemma ComputedBytes(p: Primitives, s: Session, b: Bytes)
    requires Lawful(p) && |b| == 129
    ensures var r := VmResultOf(p, InputsOf(s, b[..25]), false);
            r.Some? && ParseProof1(b).vm == OutputOf(r.value) <==> Computed(p, s, b)
  {
    hide Lawful, Isa.ResultOf, PackInputs, Code, Number;
  }

  /** What the server checks is what the bytes show. */
  lemma ProvesBytes(p: Primitives, cfg: Config, s: Session, keys: Keys, b: Bytes)
    requires Lawful(p) && |b| == 129
    ensures Proves(p, cfg, s, keys, ParseProof1(b)) <==>
            Licensed(p, cfg, s.username, b[..25]) && Computed(p, s, b) && Tied(p, s, keys, b)
  {
    AcceptsBytes(p, cfg, s.username, b[..25]);
    Proof1Input(p, s, keys, b);
    ComputedBytes(p, s, b);
    assert ParseProof1(b).license == b[..25];
    hide Lawful, Accepts, Licensed, Computed, Tied, VmResultOf, ParseProof1, Proof1, OutputOf;
  }

  /** The fields that only a HELLO sets. */
  predicate SameHandshake(s: Session, s': Session) {
    && s'.sessionId == s.sessionId && s'.username == s.username && s'.keys == s.keys
    && s'.clientPub == s.clientPub && s'.serverRandom == s.serverRandom
    && s'.serverPub == s.serverPub && s'.salt == s.salt
  }

  /** Behind the counter, the bytes decide. */
  lemma ExchangedShows(p: Primitives, cfg: Config, d: Draws, s: Session, raw: Bytes)
    requires Lawful(p) && Parse(raw).Some?
    ensures var r := Exchanged(p, cfg, d, s, Parse(raw).value);
            && (r.Some? <==> ShowsLicense(p, cfg, s, raw))
            && (r.Some? ==>
                  && SameHandshake(s, r.value.0) && r.value.0.proof1Ok && r.value.0.challenge2 == d.random
                  && r.value.0.vmDigest == DigestIn(p, s, raw))
  {
    hide Lawful, AeadOpened, AeadSealed, Absorbed, ServerProof1, ParseProof1, Proves, Parse, Authentic, Plaintext,
         Licensed, Computed, Tied;
    if s.keys.Some? {
      var keys := s.keys.value;
      OpenedBytes(p, s.transcript, keys, keys.c2s, raw);
      var b := Plaintext(p, keys.c2s, raw);
      if b.Some? && |b.value| == 129 {
        ProvesBytes(p, cfg, s, keys, b.value);
        DigestOf(b.value);
      }
    }
  }

  lemma ShowsIgnoresCounter(p: Primitives, cfg: Config, s: Session, n: nat, raw: Bytes)
    requires Lawful(p)
    ensures ShowsLicense(p, cfg, s.(clientCounter := n), raw) == ShowsLicense(p, cfg, s, raw)
    ensures DigestIn(p, s.(clientCounter := n), raw) == DigestIn(p, s, raw)
  {
    hide Lawful, Authentic, Plaintext, Licensed, PackInputs, Isa.ResultOf, Code, Number;
  }

  /** An exchange is answered exactly when its counter is new and its bytes show a license. */
  lemma ExchangeShows(p: Primitives, cfg: Config, d: Draws, s: Session, raw: Bytes)
    requires Lawful(p) && Parse(raw).Some?
    ensures var a := Exchange(p, cfg, d, s, Parse(raw).value);
            && SameHandshake(s, a.session)
            && (a.frame.Some? <==> Number(raw[22..30]) > s.clientCounter && ShowsLicense(p, cfg, s, raw))
            && (a.frame.Some? ==>
                  && a.session.proof1Ok && a.session.challenge2 == d.random
                  && a.session.vmDigest == DigestIn(p, s, raw))
            && (a.frame.None? ==>
                  && a.session.proof1Ok == s.proof1Ok && a.session.challenge2 == s.challenge2
                  && a.session.vmDigest == s.vmDigest)
  {
    hide Lawful, Exchanged, ShowsLicense, DigestIn, Parse, Number;
    CounterOf(raw);
    var n := Parse(raw).value.counter;
    ExchangedShows(p, cfg, d, s.(clientCounter := n), raw);
    ShowsIgnoresCounter(p, cfg, s, n, raw);
  }

  lemma DigestOf(b: Bytes)
    requires |b| == 129
    ensures ParseProof1(b).vm.digest == b[25..57]
  {}

  // ---- the finalize -----------------------------------------------------------------------------------------

  /** All that the bytes of an answered finalize show: the MAC over what the session knows. */
  predicate ShowsProof2(p: Primitives, s: Session, raw: Bytes) {
    && s.proof1Ok && s.keys.Some? && Authentic(p, s.transcript, s.keys.value.mac, raw)
    && Plaintext(p, s.keys.value.c2s, raw) ==
       Some(p.hmac(s.keys.value.proof2, Ascii("RG6-PROOF2/v6") + s.challenge2 + s.serverRandom + s.serverPub
                                        + s.vmDigest + s.salt))
  }

  lemma FinalizedShows(p: Primitives, d: Draws, s: Session, raw: Bytes)
    requires Lawful(p) && Parse(raw).Some?
    ensures var r := Finalized(p, d, s, Parse(raw).value);
            && (r.Some? <==> ShowsProof2(p, s, raw))
            && (r.Some? ==>
                  && SameHandshake(s, r.value.0) && r.value.0.proof1Ok == s.proof1Ok
                  && r.value.0.challenge2 == s.challenge2 && r.value.0.vmDigest == s.vmDigest)
  {
    if s.keys.Some? { OpenedBytes(p, s.transcript, s.keys.value, s.keys.value.c2s, raw); }
    Proof2Input(p, s);
    hide Lawful, AeadOpened, AeadSealed, Absorbed, SealedBlob, Parse, Authentic, Plaintext, Proof2, Ascii;
  }

  lemma Proof2Input(p: Primitives, s: Session)
    requires Lawful(p)
    ensures s.keys.Some? ==>
              Proof2(p, s.keys.value.proof2, s.challenge2, s.serverRandom, s.serverPub, s.vmDigest, s.salt) ==
              p.hmac(s.keys.value.proof2, Ascii("RG6-PROOF2/v6") + s.challenge2 + s.serverRandom + s.serverPub
                                          + s.vmDigest + s.salt)
  {
    hide Lawful, Ascii;
  }

  /** A finalize is answered exactly when its counter is new and its bytes show the second proof. */
  lemma FinalizeShows(p: Primitives, d: Draws, s: Session, raw: Bytes)
    requires Lawful(p) && Parse(raw).Some?
    ensures var a := Finalize(p, d, s, Parse(raw).value);
            && SameHandshake(s, a.session)
            && a.session.proof1Ok == s.proof1Ok && a.session.challenge2 == s.challenge2
            && a.session.vmDigest == s.vmDigest
            && (a.frame.Some? <==> Number(raw[22..30]) > s.clientCounter && ShowsProof2(p, s, raw))
  {
    hide Lawful, Finalized, Authentic, Plaintext, Parse, Number, Ascii;
    CounterOf(raw);
    var n := Parse(raw).value.counter;
    FinalizedShows(p, d, s.(clientCounter := n), raw);
  }

  // ---- the answers ------------------------------------------------------------------------------------------

  /** The reply to an exchange: the server's own proof over T3, and the challenge for the second one. */
  predicate AnswersWith(p: Primitives, s: Session, d: Draws, raw: Bytes, reply: Bytes) {
    var t3 := p.sha256(s.transcript + raw);
    && s.keys.Some? && Authentic(p, t3, s.keys.value.mac, reply)
    && Labelled(reply, 4, s.sessionId, s.serverCounter + 1)
    && Plaintext(p, s.keys.value.s2c, reply) ==
       Some(p.hmac(s.keys.value.sproof1, Ascii("RG6-SPROOF1/v6") + t3 + DigestIn(p, s, raw) + d.random) + d.random)
  }

  /** Nonce, ciphertext and tag that open to the flag under the key of T5. */
  predicate Seals(p: Primitives, keys: Keys, t5: Bytes, blob: Bytes) {
    var key, n := p.hmac(p.hmac(t5, keys.seal), Ascii("RG6 seal") + [1]), |blob|;
    && n >= 40
    && p.aeadDecrypt(key, blob[..24], blob[24..n - 16], blob[n - 16..], t5) ==
       Some(Ascii("FLAG{rankgate_insane_protocol_vm_server_mastery}"))
  }

  /** The reply to a finalize: the flag under two layers. */
  predicate ReleasesWith(p: Primitives, s: Session, raw: Bytes, reply: Bytes) {
    var t5 := p.sha256(s.transcript + raw);
    && s.keys.Some? && Authentic(p, t5, s.keys.value.mac, reply)
    && Labelled(reply, 7, s.sessionId, s.serverCounter + 1)
    && var blob := Plaintext(p, s.keys.value.s2c, reply);
    && blob.Some? && Seals(p, s.keys.value, t5, blob.value)
  }

  /** The session as an answered exchange or finalize leaves it. */
  predicate MovesOn(p: Primitives, s: Session, raw: Bytes, reply: Bytes, s': Session) {
    && |raw| >= 106 && s'.transcript == p.sha256(p.sha256(s.transcript + raw) + reply)
    && s'.serverCounter == s.serverCounter + 1 && s'.clientCounter == Number(raw[22..30])
  }

  predicate Usable(s: Session) { |s.sessionId| == 16 && s.serverCounter + 1 < Pow256(8) }

  lemma ExchangeAnswers(p: Primitives, cfg: Config, d: Draws, s: Session, raw: Bytes)
    requires Lawful(p) && Sized(d) && Usable(s) && Parse(raw).Some?
    requires Exchange(p, cfg, d, s, Parse(raw).value).frame.Some?
    ensures var a := Exchange(p, cfg, d, s, Parse(raw).value);
            AnswersWith(p, s, d, raw, Serialize(a.frame.value))
            && MovesOn(p, s, raw, Serialize(a.frame.value), a.session)
  {
    hide Lawful, Exchanged, AnswersWith, Parse, Number, Serialize, Pow256;
    CounterOf(raw);
    var n := Parse(raw).value.counter;
    ExchangedAnswers(p, cfg, d, s.(clientCounter := n), raw);
    AnswersIgnoreCounter(p, s, n, d, raw);
  }

  lemma CounterOf(raw: Bytes)
    requires Parse(raw).Some?
    ensures |raw| >= 106 && Parse(raw).value.counter == Number(raw[22..30])
  {
    FieldsOf(raw);
    hide Parse, Number, PreMac, Header, Serialize;
  }

  lemma AnswersIgnoreCounter(p: Primitives, s: Session, n: nat, d: Draws, raw: Bytes)
    ensures forall reply :: AnswersWith(p, s.(clientCounter := n), d, raw, reply) == AnswersWith(p, s, d, raw, reply)
    ensures forall reply :: ReleasesWith(p, s.(clientCounter := n), raw, reply) == ReleasesWith(p, s, raw, reply)
  {
    hide Authentic, Plaintext, Labelled, Seals, Ascii;
  }

  lemma ExchangedAnswers(p: Primitives, cfg: Config, d: Draws, s: Session, raw: Bytes)
    requires Lawful(p) && Sized(d) && Usable(s) && Parse(raw).Some?
    requires Exchanged(p, cfg, d, s, Parse(raw).value).Some?
    ensures var r := Exchanged(p, cfg, d, s, Parse(raw).value);
            && AnswersWith(p, s, d, raw, Serialize(r.value.1))
            && r.value.0.serverCounter == s.serverCounter + 1 && r.value.0.clientCounter == s.clientCounter
            && r.value.0.transcript == p.sha256(p.sha256(s.transcript + raw) + Serialize(r.value.1))
  {
    ExchangedFrame(p, cfg, d, s, raw);
    hide Lawful, Exchanged, Parse, Authentic, Plaintext, Serialize, AeadSealed, Labelled, Ascii, WellFormed, Pow256,
         DigestIn;
    var keys, t3 := s.keys.value, p.sha256(s.transcript + raw);
    var answer := p.hmac(keys.sproof1, Ascii("RG6-SPROOF1/v6") + t3 + DigestIn(p, s, raw) + d.random) + d.random;
    SentBytes(p, t3, keys, keys.s2c, 4, s.sessionId, s.serverCounter + 1, d.nonce, answer);
  }

  lemma ExchangedFrame(p: Primitives, cfg: Config, d: Draws, s: Session, raw: Bytes)
    requires Lawful(p) && Sized(d) && Parse(raw).Some?
    requires Exchanged(p, cfg, d, s, Parse(raw).value).Some?
    ensures s.keys.Some?
    ensures var (s', g) := Exchanged(p, cfg, d, s, Parse(raw).value).value;
            var keys, t3 := s.keys.value, p.sha256(s.transcript + raw);
            var proof := p.hmac(keys.sproof1, Ascii("RG6-SPROOF1/v6") + t3 + DigestIn(p, s, raw) + d.random);
            var answer := proof + d.random;
            && |answer| == 48
            && g == AeadSealed(p, t3, keys.mac, keys.s2c, 4, s.sessionId, s.serverCounter + 1, d.nonce, answer)
            && s'.serverCounter == s.serverCounter + 1 && s'.clientCounter == s.clientCounter
            && s'.transcript == p.sha256(t3 + Serialize(g))
  {
    ExchangedParts(p, cfg, d, s, Parse(raw).value);
    var keys := s.keys.value;
    OpenedBytes(p, s.transcript, keys, keys.c2s, raw);
    hide Lawful, Exchanged, AeadOpened, AeadSealed, ServerProof1, ParseProof1, Parse, Authentic, Plaintext, Serialize,
         Absorbed, Ascii;
    var got := AeadOpened(p, s.transcript, keys.mac, keys.c2s, Parse(raw).value).value;
    DigestOf(got.payload);
    ServerProofIs(p, keys.sproof1, got.state, ParseProof1(got.payload).vm.digest, d.random);
    AbsorbedIs(p, got.state, Exchanged(p, cfg, d, s, Parse(raw).value).value.1);
  }

  lemma AbsorbedIs(p: Primitives, state: Bytes, g: Frame)
    requires Lawful(p)
    ensures Absorbed(p, state, g) == p.sha256(state + Serialize(g))
  {
    hide Lawful, Serialize;
  }

  lemma ExchangedParts(p: Primitives, cfg: Config, d: Draws, s: Session, f: Frame)
    requires Lawful(p) && Exchanged(p, cfg, d, s, f).Some?
    ensures s.keys.Some?
    ensures var (s', g) := Exchanged(p, cfg, d, s, f).value;
            var keys := s.keys.value;
            var got := AeadOpened(p, s.transcript, keys.mac, keys.c2s, f);
            && got.Some? && |got.value.payload| == 129
            && g == AeadSealed(p, got.value.state, keys.mac, keys.s2c, 4, s.sessionId, s.serverCounter + 1, d.nonce,
                               ServerProof1(p, keys.sproof1, got.value.state, ParseProof1(got.value.payload).vm.digest,
                                            d.random) + d.random)
            && s'.serverCounter == s.serverCounter + 1 && s'.clientCounter == s.clientCounter
            && s'.transcript == Absorbed(p, got.value.state, g)
  {
    hide Lawful, AeadOpened, AeadSealed, ServerProof1, ParseProof1, Proves, Absorbed;
  }

  lemma ServerProofIs(p: Primitives, key: Bytes, state: Bytes, digest: Bytes, challenge2: Bytes)
    requires Lawful(p)
    ensures ServerProof1(p, key, state, digest, challenge2) ==
            p.hmac(key, Ascii("RG6-SPROOF1/v6") + state + digest + challenge2)
  {
    hide Lawful, Ascii;
  }

  lemma SealsFlag(p: Primitives, keys: Keys, t5: Bytes, sealNonce: Bytes)
    requires Lawful(p) && |t5| == 32 && |sealNonce| == 24
    ensures Seals(p, keys, t5, SealedBlob(p, keys, t5, sealNonce))
  {
    OneBlock(p, HkdfExtract(p, t5, keys.seal), Ascii("RG6 seal"));
    assert HkdfExtract(p, t5, keys.seal) == p.hmac(t5, keys.seal);
    hide Lawful, AeadEncrypt, HkdfExtract, HkdfExpand, Ascii;
    var key := SealKey(p, keys, t5);
    DecryptEncrypted(p, key, sealNonce, FLAG, t5);
    var c := AeadEncrypt(p, key, sealNonce, FLAG, t5);
    var blob := sealNonce + c.0 + c.1;
    assert blob[..24] == sealNonce && blob[24..|blob| - 16] == c.0 && blob[|blob| - 16..] == c.1;
  }

  lemma FinalizeAnswers(p: Primitives, d: Draws, s: Session, raw: Bytes)
    requires Lawful(p) && Sized(d) && Usable(s) && Parse(raw).Some?
    requires Finalize(p, d, s, Parse(raw).value).frame.Some?
    ensures var a := Finalize(p, d, s, Parse(raw).value);
            ReleasesWith(p, s, raw, Serialize(a.frame.value))
            && MovesOn(p, s, raw, Serialize(a.frame.value), a.session)
  {
    hide Lawful, Finalized, ReleasesWith, Parse, Number, Serialize, Pow256;
    CounterOf(raw);
    var n := Parse(raw).value.counter;
    FinalizedAnswers(p, d, s.(clientCounter := n), raw);
    AnswersIgnoreCounter(p, s, n, d, raw);
  }

  lemma FinalizedAnswers(p: Primitives, d: Draws, s: Session, raw: Bytes)
    requires Lawful(p) && Sized(d) && Usable(s) && Parse(raw).Some?
    requires Finalized(p, d, s, Parse(raw).value).Some?
    ensures var r := Finalized(p, d, s, Parse(raw).value);
            && ReleasesWith(p, s, raw, Serialize(r.value.1))
            && r.value.0.serverCounter == s.serverCounter + 1 && r.value.0.clientCounter == s.clientCounter
            && r.value.0.transcript == p.sha256(p.sha256(s.transcript + raw) + Serialize(r.value.1))
  {
    FinalizedFrame(p, d, s, raw);
    var keys, t5 := s.keys.value, p.sha256(s.transcript + raw);
    var blob := SealedBlob(p, keys, t5, d.sealNonce);
    SealsFlag(p, keys, t5, d.sealNonce);
    BlobSize(p, keys, t5, d.sealNonce);
    hide Lawful, Finalized, SealedBlob, Parse, Authentic, Plaintext, Serialize, AeadSealed, Labelled, Ascii, WellFormed,
         Pow256, Seals;
    SentBytes(p, t5, keys, keys.s2c, 7, s.sessionId, s.serverCounter + 1, d.nonce, blob);
  }

  lemma FinalizedFrame(p: Primitives, d: Draws, s: Session, raw: Bytes)
    requires Lawful(p) && Parse(raw).Some?
    requires Finalized(p, d, s, Parse(raw).value).Some?
    ensures s.keys.Some?
    ensures var (s', g) := Finalized(p, d, s, Parse(raw).value).value;
            var keys, t5 := s.keys.value, p.sha256(s.transcript + raw);
            && |t5| == 32
            && g == AeadSealed(p, t5, keys.mac, keys.s2c, 7, s.sessionId, s.serverCounter + 1, d.nonce,
                               SealedBlob(p, keys, t5, d.sealNonce))
            && s'.serverCounter == s.serverCounter + 1 && s'.clientCounter == s.clientCounter
            && s'.transcript == p.sha256(t5 + Serialize(g))
  {
    OpenedBytes(p, s.transcript, s.keys.value, s.keys.value.c2s, raw);
    hide Lawful, AeadOpened, AeadSealed, Proof2, SealedBlob, Parse, Authentic, Plaintext, Serialize, Ascii;
  }

  // ---- when a request is answered ---------------------------------------------------------------------------

  /** The bytes of a frame: magic, version, and a payload length of at most 2^20 that fits. */
  predicate Framed(raw: Bytes) {
    |raw| >= 106 && raw[..5] == [0x52, 0x47, 0x36, 0x00, 6] && Number(raw[54..58]) == |raw| - 106 <= 1048576
  }

  /** What each endpoint demands of a framed request. */
  predicate Demands(p: Primitives, cfg: Config, st: Store, r: Request)
    requires Lawful(p) && |r.raw| >= 106
  {
    var id, counter := r.raw[6..22], Number(r.raw[22..30]);
    match r.endpoint
    case HelloCall => r.raw[5] == 1 && counter > 0 && ShowsName(p, r.draws, r.raw)
    case ExchangeCall =>
      && r.raw[5] == 3 && id in st.sessions && counter > st.sessions[id].clientCounter
      && ShowsLicense(p, cfg, st.sessions[id], r.raw)
    case FinalizeCall =>
      && (r.raw[5] == 5 || r.raw[5] == 6) && id in st.sessions && counter > st.sessions[id].clientCounter
      && ShowsProof2(p, st.sessions[id], r.raw)
  }

  lemma ServeAnswers(p: Primitives, cfg: Config, st: Store, r: Request)
    requires Lawful(p) && Parse(r.raw).Some?
    ensures var f := Parse(r.raw).value;
            Serve(p, cfg, st, r).reply.Some? <==>
            && TypeFits(r.endpoint, f.messageType) && SessionFor(st, r.endpoint, f.sessionId).Some?
            && AnswerOf(p, cfg, r.endpoint, r.draws, SessionFor(st, r.endpoint, f.sessionId).value, f).frame.Some?
  {
    hide Lawful, Parse, AnswerOf, Stored, Serialize, TypeFits, SessionFor;
  }

  /** Over every store: a request is answered if and only if it is framed and its endpoint's demands are met. */
  lemma AnsweredExactly(p: Primitives, cfg: Config, st: Store, r: Request)
    requires Lawful(p) && Sized(r.draws)
    ensures Serve(p, cfg, st, r).reply.Some? <==> Framed(r.raw) && Demands(p, cfg, st, r)
  {
    AcceptedBytes(r.raw);
    hide Lawful, Hello, Exchange, Finalize, Serve, Parse, Number, ShowsName, ShowsLicense, ShowsProof2, SettledBy,
         ChallengesWith, SameHandshake, Sized, Serialize;
    if Parse(r.raw).Some? {
      TypeAndId(r.raw);
      ServeAnswers(p, cfg, st, r);
      var id := r.raw[6..22];
      match r.endpoint {
        case HelloCall => HelloShows(p, cfg, r.draws, r.raw);
        case ExchangeCall => if id in st.sessions { ExchangeShows(p, cfg, r.draws, st.sessions[id], r.raw); }
        case FinalizeCall => if id in st.sessions { FinalizeShows(p, r.draws, st.sessions[id], r.raw); }
      }
    } else {
      UnframedUnanswered(p, cfg, st, r);
    }
  }

  lemma TypeAndId(raw: Bytes)
    requires Parse(raw).Some?
    ensures |raw| >= 106 && Parse(raw).value.messageType == raw[5] && Parse(raw).value.sessionId == raw[6..22]
  {
    FieldsOf(raw);
    hide Parse, Number, PreMac, Header, Serialize;
  }

  lemma UnframedUnanswered(p: Primitives, cfg: Config, st: Store, r: Request)
    requires Lawful(p) && Parse(r.raw).None?
    ensures Serve(p, cfg, st, r) == Served(st, None)
  {
    hide Lawful, Parse;
  }
}
