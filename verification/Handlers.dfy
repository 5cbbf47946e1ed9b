/** The three handlers, step by step on the session objects, proved against the model of a request. */
module Handlers {
  import opened ByteStrings
  import opened Crypto
  import opened FrameFormat
  import opened Transcripts
  import opened Kdf
  import opened Channel
  import opened Usernames
  import opened Licenses
  import opened VmInputs
  import opened Recency
  import opened ServerModel
  import opened ServerObjects

  // ---- HELLO on a session object ----------------------------------------------------------------------------

  method ParseHelloPayload(payload: Bytes) returns (r: Option<HelloPayload>)
    ensures r == ParseHello(payload)
  {
    hide Number;
    if |payload| < 32 + 16 + 2 { return None; }
    var clientPub := payload[0..32];
    var clientRandom := payload[32..48];
    var n := Number(payload[48..50]);
    var raw := payload[50..if 50 + n <= |payload| then 50 + n else |payload|];
    if |raw| != n { return None; }
    r := Some(HelloPayload(clientPub, clientRandom, raw));
  }

  method Expand32(p: Primitives, prk: Bytes, info: Bytes) returns (key: Bytes)
    requires Lawful(p)
    ensures key == HkdfExpand(p, prk, info, 32)
  {
    hide Lawful, HkdfExpand;
    var r := ExpandServer(p, prk, info, 32);
    key := r.value;
  }

  method ExpandKeys(p: Primitives, prk: Bytes) returns (keys: Keys)
    requires Lawful(p)
    ensures keys == DeriveKeys(p, prk)
  {
    hide Lawful, HkdfExpand, Ascii;
    var c2s := Expand32(p, prk, Ascii("RG6 c2s aead"));
    var s2c := Expand32(p, prk, Ascii("RG6 s2c aead"));
    var mac := Expand32(p, prk, Ascii("RG6 transcript mac"));
    var proof1 := Expand32(p, prk, Ascii("RG6 client proof1"));
    var sproof1 := Expand32(p, prk, Ascii("RG6 server proof1"));
    var proof2 := Expand32(p, prk, Ascii("RG6 client proof2"));
    var seal := Expand32(p, prk, Ascii("RG6 final seal"));
    keys := Keys(c2s, s2c, mac, proof1, sproof1, proof2, seal);
  }

  /** Ephemeral key, signature, challenge frame and key schedule; a bad public key raises before anything changes. */
  method Challenge(p: Primitives, cfg: Config, d: Draws, s: SessionObject, t: Transcript) returns (reply: Option<Frame>)
    requires Lawful(p)
    modifies s, t
    ensures match Challenged(p, cfg, d, old(s.View()), old(t.state))
            case None => reply.None? && s.View() == old(s.View())
            case Some(r) => reply == Some(r.1) && s.View() == r.0
  {
    hide Lawful, Absorbed, PlainSealed, BootstrapMacKey, ChallengeSignature, DeriveKeys, HkdfExtract;
    var serverPub := p.x25519Base(d.private);
    var shared := p.x25519Shared(d.private, s.clientPub);
    if shared.None? { return None; }
    var signature := ChallengeSignature(p, cfg.signSeed, t.state, serverPub, d.random);
    var n := s.NextServerCounter();
    var out := PlainSeal(p, t, BootstrapMacKey(p), MT_SERVER_CHALLENGE, s.sessionId, n, d.nonce,
                         serverPub + d.random + signature);
    var prk := HkdfExtract(p, t.state, shared.value);
    var keys := ExpandKeys(p, prk);
    s.prk := prk;
    s.keys := Some(keys);
    s.transcript := t.state;
    s.salt := t.state;
    s.serverRandom := d.random;
    s.serverPub := serverPub;
    reply := Some(out);
  }

  method PlainSeal(p: Primitives, t: Transcript, macKey: Bytes, messageType: byte, sessionId: Bytes, counter: nat,
                   nonce: Bytes,
                   payload: Bytes) returns (f: Frame)
    requires Lawful(p)
    modifies t
    ensures f == PlainSealed(p, old(t.state), macKey, messageType, sessionId, counter, nonce, payload)
    ensures t.state == Absorbed(p, old(t.state), f)
  {
    hide Lawful, Absorbed, Sealed;
    f := t.SealFrame(p, macKey, messageType, sessionId, counter, nonce, payload, Zeros(16));
  }

  method HelloOn(p: Primitives, cfg: Config, d: Draws, s: SessionObject, f: Frame) returns (reply: Option<Frame>)
    requires Lawful(p)
    modifies s
    ensures Answer(s.View(), reply) == Hello(p, cfg, d, old(s.View()), f)
  {
    hide Lawful, Opened, Challenged, BootstrapMacKey, ParseHello, Normalized, Transcripts.Start;
    var ok := s.AcceptClientCounter(f.counter);
    if !ok { return None; }
    var t := new Transcript(p);
    ok := t.OpenFrame(p, BootstrapMacKey(p), f);
    if !ok { return None; }
    var h := ParseHelloPayload(f.payload);
    if h.None? { return None; }
    var u := NormalizeServer(h.value.username);
    if u.None? { return None; }
    s.username := u.value;
    s.clientPub := h.value.clientPub;
    reply := Challenge(p, cfg, d, s, t);
  }

  // ---- CLIENT_PROOF_1 on a session object -------------------------------------------------------------------

  /** The checks of stages 2, 4 and 3, in the server's order. */
  method CheckProof1(p: Primitives, cfg: Config, s: SessionObject, keys: Keys, x: Proof1Payload) returns (ok: bool)
    requires Lawful(p)
    ensures ok == Proves(p, cfg, s.View(), keys, x)
  {
    hide Lawful, Accepts, VmResultOf, Proof1, OutputOf;
    ok := ValidateLicense(p, cfg.licenseSecret, s.username, x.license);
    if !ok { return; }
    var vm := RunVmServer(p, cfg.blobKey, InputsOf(s.View(), x.license));
    if vm.None? || x.vm != OutputOf(vm.value) { return false; }
    ok := x.proof1 == Proof1(p, keys.proof1, s.username, x.license, x.vm, s.serverRandom, s.sessionId, s.salt);
  }

  /** The answer to a payload that passed every check. */
  method AnswerProof(p: Primitives, d: Draws, s: SessionObject, t: Transcript, keys: Keys,
                     digest: Bytes) returns (out: Frame)
    requires Lawful(p)
    modifies s, t
    ensures out == AeadSealed(p, old(t.state), keys.mac, keys.s2c, MT_SERVER_PROOF_1, s.sessionId,
                              old(s.serverCounter) + 1, d.nonce,
                              ServerProof1(p, keys.sproof1, old(t.state), digest, d.random) + d.random)
    ensures s.View() == old(s.View()).(serverCounter := old(s.serverCounter) + 1,
                                       transcript := Absorbed(p, old(t.state), out),
                                       challenge2 := d.random, vmDigest := digest, proof1Ok := true)
  {
    hide Lawful, AeadSealed, Absorbed, ServerProof1;
    var sproof := ServerProof1(p, keys.sproof1, t.state, digest, d.random);
    var n := s.NextServerCounter();
    out := AeadSeal(p, t, keys.mac, keys.s2c, MT_SERVER_PROOF_1, s.sessionId, n, d.nonce, sproof + d.random);
    s.transcript := t.state;
    s.challenge2 := d.random;
    s.vmDigest := digest;
    s.proof1Ok := true;
  }

  /** Everything behind the accepted counter; the session changes only when the answer is complete. */
  method Prove(p: Primitives, cfg: Config, d: Draws, s: SessionObject, f: Frame) returns (reply: Option<Frame>)
    requires Lawful(p)
    modifies s
    ensures match Exchanged(p, cfg, d, old(s.View()), f)
            case None => reply.None? && s.View() == old(s.View())
            case Some(r) => reply == Some(r.1) && s.View() == r.0
  {
    hide Lawful, AeadOpened, AeadSealed, Absorbed, Proves, ParseProof1, ServerProof1, Transcripts.Start;
    if s.keys.None? { return None; }
    var keys := s.keys.value;
    var t := new Transcript(p);
    t.state := s.transcript;
    var payload := AeadOpen(p, t, keys.mac, keys.c2s, f);
    if payload.None? || |payload.value| != PROOF1_SIZE { return None; }
    var x := ParseProof1(payload.value);
    var ok := CheckProof1(p, cfg, s, keys, x);
    if !ok { return None; }
    var out := AnswerProof(p, d, s, t, keys, x.vm.digest);
    reply := Some(out);
  }

  method ExchangeOn(p: Primitives, cfg: Config, d: Draws, s: SessionObject, f: Frame) returns (reply: Option<Frame>)
    requires Lawful(p)
    modifies s
    ensures Answer(s.View(), reply) == Exchange(p, cfg, d, old(s.View()), f)
  {
    hide Lawful, Exchanged;
    var ok := s.AcceptClientCounter(f.counter);
    if !ok { return None; }
    reply := Prove(p, cfg, d, s, f);
  }

  // ---- CLIENT_PROOF_2 on a session object -------------------------------------------------------------------

  method SealFlag(p: Primitives, keys: Keys, t5: Bytes, sealNonce: Bytes) returns (blob: Bytes)
    requires Lawful(p)
    ensures blob == SealedBlob(p, keys, t5, sealNonce)
  {
    hide Lawful, HkdfExtract, HkdfExpand, AeadEncrypt, Ascii;
    var prk := HkdfExtract(p, t5, keys.seal);
    var sealKey := Expand32(p, prk, Ascii("RG6 seal"));
    var c := AeadEncrypt(p, sealKey, sealNonce, FLAG, t5);
    blob := sealNonce + c.0 + c.1;
  }

  method Release(p: Primitives, d: Draws, s: SessionObject, f: Frame) returns (reply: Option<Frame>)
    requires Lawful(p)
    modifies s
    ensures match Finalized(p, d, old(s.View()), f)
            case None => reply.None? && s.View() == old(s.View())
            case Some(r) => reply == Some(r.1) && s.View() == r.0
  {
    hide Lawful, AeadOpened, AeadSealed, Absorbed, Proof2, SealedBlob, Transcripts.Start;
    if !s.proof1Ok { return None; }
    if s.keys.None? { return None; }
    var keys := s.keys.value;
    var t := new Transcript(p);
    t.state := s.transcript;
    var payload := AeadOpen(p, t, keys.mac, keys.c2s, f);
    if payload.None? || |payload.value| != 32 { return None; }
    if payload.value != Proof2(p, keys.proof2, s.challenge2, s.serverRandom, s.serverPub, s.vmDigest,
                               s.salt) { return None; }
    var blob := SealFlag(p, keys, t.state, d.sealNonce);
    var n := s.NextServerCounter();
    var out := AeadSeal(p, t, keys.mac, keys.s2c, MT_SEALED_FLAG, s.sessionId, n, d.nonce, blob);
    s.transcript := t.state;
    reply := Some(out);
  }

  method FinalizeOn(p: Primitives, d: Draws, s: SessionObject, f: Frame) returns (reply: Option<Frame>)
    requires Lawful(p)
    modifies s
    ensures Answer(s.View(), reply) == Finalize(p, d, old(s.View()), f)
  {
    hide Lawful, Finalized;
    var ok := s.AcceptClientCounter(f.counter);
    if !ok { return None; }
    reply := Release(p, d, s, f);
  }

  // ---- the handlers on the store ----------------------------------------------------------------------------

  /** A store in which only the session at `id` is not what it was before. */
  lemma OnlyOneChanged(store: SessionStore, before: Store, id: Bytes)
    requires store.Valid() && id in store.table && store.order == Touched(before.order, id)
    requires forall x :: x in store.table && x != id ==>
               x in before.sessions && store.table[x].View() == before.sessions[x]
    ensures store.View() == Stored(before, store.table[id].View())
  {
    hide Touched, Bounded;
    var s := store.table[id].View();
    forall x ensures x in ToSet(store.order) <==> x in store.order {}
    assert store.View().sessions == Restrict(before.sessions[id := s], store.order);
  }

  /** What `Serve` says, by the way a request goes. */
  lemma ServeCases(p: Primitives, cfg: Config, st: Store, r: Request)
    requires Lawful(p)
    ensures Parse(r.raw).None? ==> Serve(p, cfg, st, r) == Served(st, None)
    ensures Parse(r.raw).Some? ==>
              var f := Parse(r.raw).value;
              var s := SessionFor(st, r.endpoint, f.sessionId);
              && (!TypeFits(r.endpoint, f.messageType) || s.None? ==> Serve(p, cfg, st, r) == Served(st, None))
              && (TypeFits(r.endpoint, f.messageType) && s.Some? ==>
                    var a := AnswerOf(p, cfg, r.endpoint, r.draws, s.value, f);
                    Serve(p, cfg, st, r) ==
                    Served(Stored(st, a.session), Wire(a.frame)))
  {
    hide Lawful, Parse, Serialize, AnswerOf, Stored, TypeFits;
  }

  function Wire(reply: Option<Frame>): Option<Bytes> {
    match reply case None => None case Some(out) => Some(Serialize(out))
  }

  /** The store has the new session before any check of the frame's MAC. */
  method HelloIn(p: Primitives, cfg: Config, d: Draws, store: SessionStore, f: Frame) returns (out: Option<Frame>)
    requires Lawful(p) && store.Valid()
    modifies store
    ensures store.Valid() && fresh(store.table.Values - old(store.table.Values))
    ensures var a := Hello(p, cfg, d, Fresh(f.sessionId), f);
            store.View() == Stored(old(store.View()), a.session) && out == a.frame
  {
    hide Lawful, Stored, Hello, Touched, Bounded;
    ghost var before := store.View();
    var s := store.Create(f.sessionId);
    out := HelloOn(p, cfg, d, s, f);
    OnlyOneChanged(store, before, f.sessionId);
  }

  method HandleHello(p: Primitives, cfg: Config, d: Draws, store: SessionStore,
                     raw: Bytes) returns (reply: Option<Bytes>)
    requires Lawful(p) && store.Valid()
    modifies store, store.table.Values
    ensures store.Valid() && fresh(store.table.Values - old(store.table.Values))
    ensures Served(store.View(), reply) == Serve(p, cfg, old(store.View()), Request(HelloCall, raw, d))
  {
    hide Lawful, Parse, Serialize, Serve, Stored, Hello, Touched, Bounded;
    ServeCases(p, cfg, store.View(), Request(HelloCall, raw, d));
    var frame := ParseServer(raw);
    if frame.None? { return None; }
    var f := frame.value;
    if f.messageType != MT_HELLO { return None; }
    var out := HelloIn(p, cfg, d, store, f);
    reply := Wire(out);
  }

  /** The session at the frame's id, if there is one, is updated where it is. */
  method ExchangeIn(p: Primitives, cfg: Config, d: Draws, store: SessionStore, f: Frame) returns (out: Option<Frame>)
    requires Lawful(p) && store.Valid()
    modifies store, store.table.Values
    ensures store.Valid() && store.table == old(store.table)
    ensures f.sessionId !in store.table ==> store.View() == old(store.View()) && out == None
    ensures f.sessionId in store.table ==>
              var a := Exchange(p, cfg, d, old(store.View()).sessions[f.sessionId], f);
              store.View() == Stored(old(store.View()), a.session) && out == a.frame
  {
    hide Lawful, Stored, Exchange, Touched, Bounded;
    ghost var before := store.View();
    var s := store.Get(f.sessionId);
    if s.None? { return None; }
    out := ExchangeOn(p, cfg, d, s.value, f);
    OnlyOneChanged(store, before, f.sessionId);
  }

  method HandleExchange(p: Primitives, cfg: Config, d: Draws, store: SessionStore,
                        raw: Bytes) returns (reply: Option<Bytes>)
    requires Lawful(p) && store.Valid()
    modifies store, store.table.Values
    ensures store.Valid() && fresh(store.table.Values - old(store.table.Values))
    ensures Served(store.View(), reply) == Serve(p, cfg, old(store.View()), Request(ExchangeCall, raw, d))
  {
    hide Lawful, Parse, Serialize, Serve, Stored, Exchange, Touched, Bounded;
    ServeCases(p, cfg, store.View(), Request(ExchangeCall, raw, d));
    var frame := ParseServer(raw);
    if frame.None? { return None; }
    var f := frame.value;
    if f.messageType != MT_CLIENT_PROOF_1 { return None; }
    var out := ExchangeIn(p, cfg, d, store, f);
    reply := Wire(out);
  }

  /** The session at the frame's id, if there is one, is updated where it is. */
  method FinalizeIn(p: Primitives, d: Draws, store: SessionStore, f: Frame) returns (out: Option<Frame>)
    requires Lawful(p) && store.Valid()
    modifies store, store.table.Values
    ensures store.Valid() && store.table == old(store.table)
    ensures f.sessionId !in store.table ==> store.View() == old(store.View()) && out == None
    ensures f.sessionId in store.table ==>
              var a := Finalize(p, d, old(store.View()).sessions[f.sessionId], f);
              store.View() == Stored(old(store.View()), a.session) && out == a.frame
  {
    hide Lawful, Stored, Finalize, Touched, Bounded;
    ghost var before := store.View();
    var s := store.Get(f.sessionId);
    if s.None? { return None; }
    out := FinalizeOn(p, d, s.value, f);
    OnlyOneChanged(store, before, f.sessionId);
  }

  method HandleFinalize(p: Primitives, cfg: Config, d: Draws, store: SessionStore,
                        raw: Bytes) returns (reply: Option<Bytes>)
    requires Lawful(p) && store.Valid()
    modifies store, store.table.Values
    ensures store.Valid() && fresh(store.table.Values - old(store.table.Values))
    ensures Served(store.View(), reply) == Serve(p, cfg, old(store.View()), Request(FinalizeCall, raw, d))
  {
    hide Lawful, Parse, Serialize, Serve, Stored, Finalize, Touched, Bounded;
    ServeCases(p, cfg, store.View(), Request(FinalizeCall, raw, d));
    var frame := ParseServer(raw);
    if frame.None? { return None; }
    var f := frame.value;
    if f.messageType != MT_CLIENT_PROOF_2 && f.messageType != MT_FINALIZE { return None; }
    var out := FinalizeIn(p, d, store, f);
    reply := Wire(out);
  }
}
