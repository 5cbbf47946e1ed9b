/** `run_session` as the client executes it: buffers are appended to and one transcript moves through every stage. */
module Client {
  import opened ByteStrings
  import opened Crypto
  import opened FrameFormat
  import opened Transcripts
  import opened Kdf
  import opened Channel
  import opened Usernames
  import opened VmInputs
  import opened Recency
  import opened ServerModel
  import opened ServerObjects
  import opened Handlers
  import opened ClientModel
  import opened HonestRun
  import opened Interleaving
  import opened ServerRuns
  import Evidence
  import ClientEvidence

  method ExpandClientKeys(p: Primitives, prk: Bytes) returns (keys: Keys)
    requires Lawful(p)
    ensures keys == DeriveKeys(p, prk)
  {
    hide Lawful, HkdfExpand, Ascii;
    var c2s := ExpandClient(p, prk, Ascii("RG6 c2s aead"), 32);
    var s2c := ExpandClient(p, prk, Ascii("RG6 s2c aead"), 32);
    var mac := ExpandClient(p, prk, Ascii("RG6 transcript mac"), 32);
    var proof1 := ExpandClient(p, prk, Ascii("RG6 client proof1"), 32);
    var sproof1 := ExpandClient(p, prk, Ascii("RG6 server proof1"), 32);
    var proof2 := ExpandClient(p, prk, Ascii("RG6 client proof2"), 32);
    var seal := ExpandClient(p, prk, Ascii("RG6 final seal"), 32);
    keys := Keys(c2s, s2c, mac, proof1, sproof1, proof2, seal);
  }

  method SendHello(p: Primitives, d: ClientDraws, username: Bytes, t: Transcript) returns (f: Frame)
    requires Lawful(p) && t.state == Transcripts.Start(p)
    modifies t
    ensures f == HelloFrame(p, d, username) && t.state == Absorbed(p, Transcripts.Start(p), f)
  {
    hide Lawful, Absorbed, PlainSealed, BootstrapMacKey, Transcripts.Start;
    var payload := p.x25519Base(d.private);
    payload := payload + d.random;
    payload := payload + BigEndian(|username| % 0x1_0000, 2);
    payload := payload + username;
    f := PlainSeal(p, t, BootstrapMacKey(p), MT_HELLO, d.sessionId, 1, d.nonce1, payload);
  }

  /** Key schedule, VM, and the first proof. */
  method Prove1(p: Primitives, blobKey: Bytes, d: ClientDraws, e: Entry, serverPub: Bytes, serverRandom: Bytes,
                t: Transcript)
    returns (c: Option<Keyed>)
    requires Lawful(p)
    modifies t
    ensures c == KeyedBy(p, d, e, serverPub, serverRandom, old(t.state))
    ensures c.Some? ==> t.state == Absorbed(p, old(t.state), c.value.frame)
  {
    hide Lawful, Absorbed, AeadSealed, DeriveKeys, HkdfExtract, VmResultOf, Proof1, OutputOf, Proof1Bytes;
    var salt := t.state;
    var shared := p.x25519Shared(d.private, serverPub);
    if shared.None? { return None; }
    var prk := HkdfExtract(p, salt, shared.value);
    var keys := ExpandClientKeys(p, prk);
    var vm := RunVmClient(p, blobKey, Inputs(e.username, e.license, serverRandom, d.sessionId, salt), serverRandom);
    if vm.None? { return None; }
    var x := OutputOf(vm.value);
    var proof1 := Proof1(p, keys.proof1, e.username, e.license, x, serverRandom, d.sessionId, salt);
    var payload := Proof1Payload(e.license, x, proof1);
    var f := AeadSeal(p, t, keys.mac, keys.c2s, MT_CLIENT_PROOF_1, d.sessionId, 2, d.nonce2, payload);
    c := Some(Keyed(serverPub, serverRandom, salt, keys, vm.value, f));
  }

  method Proof1Payload(license: Bytes, vm: VmOutput, proof1: Bytes) returns (payload: Bytes)
    ensures payload == Proof1Bytes(license, vm, proof1)
  {
    hide BigEndian;
    payload := license;
    payload := payload + vm.digest;
    payload := payload + vm.stateHash;
    payload := payload + BigEndian(vm.pathId, 4);
    payload := payload + BigEndian(vm.haltCode, 4);
    payload := payload + proof1;
  }

  method AcceptChallenge(p: Primitives, signPublic: Bytes, blobKey: Bytes, d: ClientDraws, e: Entry, t: Transcript,
                         raw: Bytes)
    returns (c: Option<Keyed>)
    requires Lawful(p) && t.state == Absorbed(p, Transcripts.Start(p), HelloFrame(p, d, e.username))
    modifies t
    ensures c == OnChallenge(p, signPublic, d, e, raw)
    ensures c.Some? <==> Evidence.Framed(raw) && ClientEvidence.Signed(p, signPublic, d.private, old(t.state), raw)
    ensures c.Some? ==> t.state == Absorbed(p, c.value.salt, c.value.frame)
  {
    hide Lawful, Absorbed, Opened, Parse, BootstrapMacKey, HelloFrame, Transcripts.Start, SignedData, KeyedBy,
         Evidence.Framed, ClientEvidence.Signed;
    ChallengeDecides(p, signPublic, d, e, raw);
    var t1 := t.state;
    var frame := ParseClient(raw);
    if frame.None? { return None; }
    var f := frame.value;
    var ok := t.OpenFrame(p, BootstrapMacKey(p), f);
    if !ok || |f.payload| < 32 + 16 + 64 { return None; }
    var serverPub, serverRandom, signature := f.payload[..32], f.payload[32..48], f.payload[48..112];
    if !p.verify(signPublic, SignedData(t1, serverPub, serverRandom), signature) { return None; }
    KeyedSalt(p, d, e, serverPub, serverRandom, t.state);
    c := Prove1(p, blobKey, d, e, serverPub, serverRandom, t);
  }

  lemma ChallengeDecides(p: Primitives, signPublic: Bytes, d: ClientDraws, e: Entry, raw: Bytes)
    requires Lawful(p)
    ensures var t1 := Absorbed(p, Transcripts.Start(p), HelloFrame(p, d, e.username));
            OnChallenge(p, signPublic, d, e, raw).Some? <==>
            Evidence.Framed(raw) && ClientEvidence.Signed(p, signPublic, d.private, t1, raw)
  {
    hide Lawful, OnChallenge, Absorbed, HelloFrame, Evidence.Framed, ClientEvidence.Signed, ClientEvidence.AfterHello,
         ClientEvidence.LearnedFrom;
    ClientEvidence.ChallengeShows(p, signPublic, d, e, raw);
    ClientEvidence.AfterHelloIs(p, d, e.username);
  }

  lemma KeyedSalt(p: Primitives, d: ClientDraws, e: Entry, serverPub: Bytes, serverRandom: Bytes, salt: Bytes)
    requires Lawful(p)
    ensures var c := KeyedBy(p, d, e, serverPub, serverRandom, salt); c.Some? ==> c.value.salt == salt
  {
    hide Lawful, AeadSealed, DeriveKeys, HkdfExtract, VmResultOf, Proof1, OutputOf, Proof1Bytes;
  }

  method AcceptProof(p: Primitives, d: ClientDraws, c: Keyed, t: Transcript, raw: Bytes) returns (b: Option<Proved>)
    requires Lawful(p) && t.state == Absorbed(p, c.salt, c.frame)
    modifies t
    ensures b == OnServerProof(p, d, c, raw)
    ensures b.Some? <==> Evidence.Framed(raw) && ClientEvidence.ProvedBy(p, c, old(t.state), raw)
    ensures b.Some? ==> t.state == Absorbed(p, b.value.t4, b.value.frame)
  {
    hide Lawful, Absorbed, AeadOpened, AeadSealed, Parse, ServerProof1, Proof2, Evidence.Framed,
         ClientEvidence.ProvedBy;
    ProofDecides(p, d, c, raw);
    var t3 := t.state;
    var frame := ParseClient(raw);
    if frame.None? { return None; }
    var payload := AeadOpen(p, t, c.keys.mac, c.keys.s2c, frame.value);
    if payload.None? || |payload.value| != 48 { return None; }
    var serverProof, challenge2 := payload.value[..32], payload.value[32..48];
    if serverProof != ServerProof1(p, c.keys.sproof1, t3, c.vm.digest, challenge2) { return None; }
    var t4 := t.state;
    var proof2 := Proof2(p, c.keys.proof2, challenge2, c.serverRandom, c.serverPub, c.vm.digest, c.salt);
    var f := AeadSeal(p, t, c.keys.mac, c.keys.c2s, MT_CLIENT_PROOF_2, d.sessionId, 3, d.nonce3, proof2);
    b := Some(Proved(challenge2, t4, f));
  }

  lemma ProofDecides(p: Primitives, d: ClientDraws, c: Keyed, raw: Bytes)
    requires Lawful(p)
    ensures OnServerProof(p, d, c, raw).Some? <==>
            Evidence.Framed(raw) && ClientEvidence.ProvedBy(p, c, Absorbed(p, c.salt, c.frame), raw)
  {
    hide Lawful, OnServerProof, Absorbed, AeadSealed, Evidence.Framed, Evidence.Plaintext, ClientEvidence.ProvedBy,
         ClientEvidence.AfterProof, ClientEvidence.SecondProof;
    ClientEvidence.ServerProofShows(p, d, c, raw);
    ClientEvidence.AfterProofIs(p, c);
  }

  method OpenFlag(p: Primitives, c: Keyed, b: Proved, t: Transcript, raw: Bytes) returns (flag: Option<Bytes>)
    requires Lawful(p) && t.state == Absorbed(p, b.t4, b.frame)
    modifies t
    ensures flag == OnSealedFlag(p, c, b, raw)
    ensures flag.Some? ==> Parse(raw).Some? && t.state == Absorbed(p, Absorbed(p, b.t4, b.frame), Parse(raw).value)
  {
    hide Lawful, Absorbed, AeadOpened, AeadDecrypt, Parse, HkdfExpand, HkdfExtract, Ascii;
    var t5 := t.state;
    var frame := ParseClient(raw);
    if frame.None? { return None; }
    var blob := AeadOpen(p, t, c.keys.mac, c.keys.s2c, frame.value);
    if blob.None? || |blob.value| < 24 + 16 { return None; }
    AeadOpenedState(p, t5, c.keys.mac, c.keys.s2c, frame.value);
    var n := |blob.value| - 16;
    var sealNonce, ct, tag := blob.value[..24], blob.value[24..n], blob.value[n..];
    var prk := HkdfExtract(p, t5, c.keys.seal);
    var sealKey := ExpandClient(p, prk, Ascii("RG6 seal"), 32);
    flag := AeadDecrypt(p, sealKey, sealNonce, ct, tag, t5);
  }

  /** The server answers the HELLO with what the client will accept. */
  method PostHello(p: Primitives, cfg: Config, d: ClientDraws, e: Entry, store: SessionStore, ds: Draws, hello: Frame)
    returns (reply: Bytes)
    requires Lawful(p) && ClientSized(d) && Canonical(e.username) && Sized(ds) && store.Valid()
    requires hello == HelloFrame(p, d, e.username)
    modifies store, store.table.Values
    ensures store.Valid() && fresh(store.table.Values - old(store.table.Values))
    ensures var c := OnChallenge(p, p.signPublic(cfg.signSeed), d, e, reply);
            && c.Some? && KeyedBy(p, d, e, c.value.serverPub, c.value.serverRandom, c.value.salt) == c
            && d.sessionId in store.View().sessions && AgreeOnKeys(store.View().sessions[d.sessionId], d, e, c.value)
  {
    hide Lawful, ValidStore, Serialize, Serve, OnChallenge, KeyedBy, HelloFrame, AgreeOnKeys, Sized, ClientSized,
         Touched, Bounded,
         Canonical;
    store.ViewValid();
    FirstCall(p, cfg, store.View(), d, e, ds);
    var r := HandleHello(p, cfg, ds, store, Serialize(hello));
    reply := r.value;
  }

  /** HELLO and back: both sides hold the same keys. */
  method Greet(p: Primitives, cfg: Config, d: ClientDraws, e: Entry, store: SessionStore, ds: Draws,
               t: Transcript) returns (c: Keyed)
    requires Lawful(p) && ClientSized(d) && Honest(p, cfg, e) && Sized(ds) && store.Valid()
        && t.state == Transcripts.Start(p)
    modifies store, store.table.Values, t
    ensures store.Valid() && fresh(store.table.Values - old(store.table.Values))
    ensures t.state == Absorbed(p, c.salt, c.frame) && KeyedBy(p, d, e, c.serverPub, c.serverRandom, c.salt) == Some(c)
    ensures d.sessionId in store.View().sessions && AgreeOnKeys(store.View().sessions[d.sessionId], d, e, c)
  {
    hide Lawful, OnChallenge, KeyedBy, HelloFrame, AgreeOnKeys, Sized, ClientSized, Bounded, Canonical, Absorbed,
         Transcripts.Start;
    var hello := SendHello(p, d, e.username, t);
    var reply := PostHello(p, cfg, d, e, store, ds, hello);
    var accepted := AcceptChallenge(p, p.signPublic(cfg.signSeed), cfg.blobKey, d, e, t, reply);
    c := accepted.value;
  }

  /** Proof 1 and back: both sides hold everything proof 2 is made of. */
  method ExchangeProofs(p: Primitives, cfg: Config, d: ClientDraws, e: Entry, store: SessionStore, ds: Draws,
                        t: Transcript, c: Keyed)
    returns (b: Proved)
    requires Lawful(p) && ClientSized(d) && Honest(p, cfg, e) && Sized(ds) && store.Valid()
    requires t.state == Absorbed(p, c.salt, c.frame) && KeyedBy(p, d, e, c.serverPub, c.serverRandom, c.salt) == Some(c)
    requires d.sessionId in store.View().sessions && AgreeOnKeys(store.View().sessions[d.sessionId], d, e, c)
    modifies store, store.table.Values, t
    ensures store.Valid() && fresh(store.table.Values - old(store.table.Values))
        && t.state == Absorbed(p, b.t4, b.frame)
    ensures d.sessionId in store.View().sessions && AgreeOnProof(p, store.View().sessions[d.sessionId], d, c, b)
  {
    hide Lawful, ValidStore, Serialize, Serve, OnServerProof, KeyedBy, Honest, AgreeOnKeys, AgreeOnProof, Sized,
         ClientSized, Touched,
         Bounded, Absorbed;
    store.ViewValid();
    SecondCall(p, cfg, store.View(), d, e, c, ds);
    var r := HandleExchange(p, cfg, ds, store, Serialize(c.frame));
    var accepted := AcceptProof(p, d, c, t, r.value);
    b := accepted.value;
  }

  /** Proof 2 and back: the client has the flag, and both transcripts are equal behind it. */
  method CollectFlag(p: Primitives, cfg: Config, d: ClientDraws, store: SessionStore, ds: Draws, t: Transcript,
                     c: Keyed, b: Proved)
    returns (flag: Option<Bytes>)
    requires Lawful(p) && ClientSized(d) && Sized(ds) && store.Valid() && t.state == Absorbed(p, b.t4, b.frame)
    requires d.sessionId in store.View().sessions && AgreeOnProof(p, store.View().sessions[d.sessionId], d, c, b)
    modifies store, store.table.Values, t
    ensures store.Valid() && flag == Some(FLAG)
    ensures d.sessionId in store.View().sessions && store.View().sessions[d.sessionId].transcript == t.state
  {
    hide Lawful, ValidStore, Serialize, Parse, Serve, OnSealedFlag, AgreeOnProof, ClientSized, Sized, Touched, Bounded,
         Absorbed;
    store.ViewValid();
    ThirdCall(p, cfg, store.View(), d, c, b, ds);
    var r := HandleFinalize(p, cfg, ds, store, Serialize(b.frame));
    flag := OpenFlag(p, c, b, t, r.value);
  }

  /**
   The whole of `run_session` against the three handlers on a live store, whatever sessions that store
   holds: for all randomness, an honest user gets the flag.
   */
  method RunSession(p: Primitives, cfg: Config, d: ClientDraws, e: Entry, store: SessionStore, ds1: Draws, ds2: Draws,
                    ds3: Draws)
    returns (flag: Option<Bytes>)
    requires Lawful(p) && ClientSized(d) && Honest(p, cfg, e) && Sized(ds1) && Sized(ds2) && Sized(ds3) && store.Valid()
    modifies store, store.table.Values
    ensures flag == Some(FLAG) && store.Valid()
  {
    hide Lawful, KeyedBy, AgreeOnKeys, AgreeOnProof, ClientSized, Sized, Honest, Bounded, Absorbed, Transcripts.Start;
    var t := new Transcript(p);
    var c := Greet(p, cfg, d, e, store, ds1, t);
    var b := ExchangeProofs(p, cfg, d, e, store, ds2, t, c);
    flag := CollectFlag(p, cfg, d, store, ds3, t, c, b);
  }
}
