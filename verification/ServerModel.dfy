/**
 What a request does to the server, as functions on the session store. A request that raises keeps
 the effects it had before: the session a HELLO created, and the client counter that was accepted.
 */
module ServerModel {
  import opened ByteStrings
  import opened Crypto
  import opened FrameFormat
  import opened Transcripts
  import opened Kdf
  import opened Channel
  import opened Recency
  import opened Usernames
  import opened Licenses
  import Isa
  import opened VmInputs

  const FLAG: Bytes := Ascii("FLAG{rankgate_insane_protocol_vm_server_mastery}")

  /** The server's own secrets. */
  datatype Config = Config(signSeed: Bytes, licenseSecret: Bytes, blobKey: Bytes)

  /** What a request draws at random, an ephemeral private key included. */
  datatype Draws = Draws(private: Bytes, random: Bytes, nonce: Bytes, sealNonce: Bytes)

  predicate Sized(d: Draws) { |d.private| == 32 && |d.random| == 16 && |d.nonce| == 24 && |d.sealNonce| == 24 }

  datatype Session = Session(
    sessionId: Bytes, username: Bytes, clientPub: Bytes, serverPub: Bytes, serverRandom: Bytes, prk: Bytes,
    keys: Option<Keys>, transcript: Bytes, salt: Bytes, clientCounter: nat, serverCounter: nat,
    challenge2: Bytes, vmDigest: Bytes, proof1Ok: bool)

  function Fresh(id: Bytes): Session {
    Session(id, [], [], [], [], [], None, [], [], 0, 0, [], [], false)
  }

  /** A session and the frame that answers the request; None when the request raises. */
  datatype Answer = Answer(session: Session, frame: Option<Frame>)

  // ---- HELLO ------------------------------------------------------------------------------------------------

  datatype HelloPayload = HelloPayload(clientPub: Bytes, clientRandom: Bytes, username: Bytes)

  /** Bytes behind the username are ignored. */
  function ParseHello(payload: Bytes): Option<HelloPayload> {
    if |payload| < 50 then None
    else
      var n := Number(payload[48..50]);
      if |payload| < 50 + n then None
      else Some(HelloPayload(payload[..32], payload[32..48], payload[50..50 + n]))
  }

  function ChallengeSignature(p: Primitives, signSeed: Bytes, state: Bytes, serverPub: Bytes,
                              serverRandom: Bytes): (r: Bytes)
    requires Lawful(p)
    ensures |r| == 64
  { p.sign(signSeed, SignedData(state, serverPub, serverRandom)) }

  function SignedData(state: Bytes, serverPub: Bytes, serverRandom: Bytes): Bytes {
    Ascii("RG6-SERVER-CHALLENGE/v6") + state + serverPub + serverRandom
  }

  /** The challenge, and the session once its keys are derived with salt T2. */
  function Challenged(p: Primitives, cfg: Config, d: Draws, s: Session, t1: Bytes): Option<(Session, Frame)>
    requires Lawful(p)
  {
    var serverPub := p.x25519Base(d.private);
    var shared :- p.x25519Shared(d.private, s.clientPub);
    var signature := ChallengeSignature(p, cfg.signSeed, t1, serverPub, d.random);
    var out := PlainSealed(p, t1, BootstrapMacKey(p), MT_SERVER_CHALLENGE, s.sessionId, s.serverCounter + 1, d.nonce,
                           serverPub + d.random + signature);
    var t2 := Absorbed(p, t1, out);
    var prk := HkdfExtract(p, t2, shared);
    Some((s.(serverCounter := s.serverCounter + 1, prk := prk, keys := Some(DeriveKeys(p, prk)), transcript := t2,
             salt := t2, serverRandom := d.random, serverPub := serverPub), out))
  }

  /** The HELLO on the session that was just created for it. */
  function Hello(p: Primitives, cfg: Config, d: Draws, s: Session, f: Frame): Answer
    requires Lawful(p)
  {
    if f.counter <= s.clientCounter then Answer(s, None)
    else
      var s1 := s.(clientCounter := f.counter);
      match Opened(p, Transcripts.Start(p), BootstrapMacKey(p), f)
      case None => Answer(s1, None)
      case Some(t1) =>
        match ParseHello(f.payload)
        case None => Answer(s1, None)
        case Some(h) =>
          match Normalized(h.username)
          case None => Answer(s1, None)
          case Some(u) =>
            var s2 := s1.(username := u, clientPub := h.clientPub);
            match Challenged(p, cfg, d, s2, t1)
            case None => Answer(s2, None)
            case Some(r) => Answer(r.0, Some(r.1))
  }

  // ---- CLIENT_PROOF_1 ---------------------------------------------------------------------------------------

  const PROOF1_SIZE: nat := 129

  datatype Proof1Payload = Proof1Payload(license: Bytes, vm: VmOutput, proof1: Bytes)

  function ParseProof1(b: Bytes): Proof1Payload
    requires |b| == PROOF1_SIZE
  {
    Proof1Payload(b[..25], VmOutput(b[25..57], b[57..89], Number(b[89..93]), Number(b[93..97])), b[97..129])
  }

  function InputsOf(s: Session, license: Bytes): Inputs {
    Inputs(s.username, license, s.serverRandom, s.sessionId, s.salt)
  }

  function OutputOf(r: Isa.VmResult): VmOutput { VmOutput(r.digest, r.stateHash, r.pathId as nat, r.haltCode as nat) }

  /**
   The evidence an exchange demands: a license accepted for the session's username, the VM outputs the
   server computes itself from the session's inputs, and the proof over all of it.
   */
  predicate Proves(p: Primitives, cfg: Config, s: Session, keys: Keys, x: Proof1Payload)
    requires Lawful(p)
  {
    && Accepts(p, cfg.licenseSecret, s.username, x.license)
    && VmResultOf(p, InputsOf(s, x.license), false).Some?
    && x.vm == OutputOf(VmResultOf(p, InputsOf(s, x.license), false).value)
    && x.proof1 == Proof1(p, keys.proof1, s.username, x.license, x.vm, s.serverRandom, s.sessionId, s.salt)
  }

  /** The answer to a frame whose counter was accepted. */
  function Exchanged(p: Primitives, cfg: Config, d: Draws, s: Session, f: Frame): Option<(Session, Frame)>
    requires Lawful(p)
  {
    var keys :- s.keys;
    var got :- AeadOpened(p, s.transcript, keys.mac, keys.c2s, f);
    if |got.payload| != PROOF1_SIZE then None
    else
      var x := ParseProof1(got.payload);
      if !Proves(p, cfg, s, keys, x) then None
      else
        var sproof := ServerProof1(p, keys.sproof1, got.state, x.vm.digest, d.random);
        var out := AeadSealed(p, got.state, keys.mac, keys.s2c, MT_SERVER_PROOF_1, s.sessionId, s.serverCounter + 1,
                              d.nonce, sproof + d.random);
        Some((s.(serverCounter := s.serverCounter + 1, transcript := Absorbed(p, got.state, out),
                 challenge2 := d.random, vmDigest := x.vm.digest, proof1Ok := true), out))
  }

  function Exchange(p: Primitives, cfg: Config, d: Draws, s: Session, f: Frame): Answer
    requires Lawful(p)
  {
    if f.counter <= s.clientCounter then Answer(s, None)
    else
      var s1 := s.(clientCounter := f.counter);
      match Exchanged(p, cfg, d, s1, f)
      case None => Answer(s1, None)
      case Some(r) => Answer(r.0, Some(r.1))
  }

  // ---- CLIENT_PROOF_2 ---------------------------------------------------------------------------------------

  function SealKey(p: Primitives, keys: Keys, t5: Bytes): (r: Bytes)
    requires Lawful(p)
    ensures |r| == 32
  { Hkdf(p, t5, keys.seal, Ascii("RG6 seal"), 32) }

  /** The flag under the key of the accepted transcript, with its nonce in front and its tag behind. */
  function SealedBlob(p: Primitives, keys: Keys, t5: Bytes, sealNonce: Bytes): Bytes
    requires Lawful(p)
  {
    var c := AeadEncrypt(p, SealKey(p, keys, t5), sealNonce, FLAG, t5);
    sealNonce + c.0 + c.1
  }

  function Finalized(p: Primitives, d: Draws, s: Session, f: Frame): Option<(Session, Frame)>
    requires Lawful(p)
  {
    if !s.proof1Ok then None
    else
      var keys :- s.keys;
      var got :- AeadOpened(p, s.transcript, keys.mac, keys.c2s, f);
      if |got.payload| != 32 then None
      else if got.payload != Proof2(p, keys.proof2, s.challenge2, s.serverRandom, s.serverPub, s.vmDigest,
                                    s.salt) then None
      else
        var out := AeadSealed(p, got.state, keys.mac, keys.s2c, MT_SEALED_FLAG, s.sessionId, s.serverCounter + 1,
                              d.nonce,
                              SealedBlob(p, keys, got.state, d.sealNonce));
        Some((s.(serverCounter := s.serverCounter + 1, transcript := Absorbed(p, got.state, out)), out))
  }

  function Finalize(p: Primitives, d: Draws, s: Session, f: Frame): Answer
    requires Lawful(p)
  {
    if f.counter <= s.clientCounter then Answer(s, None)
    else
      var s1 := s.(clientCounter := f.counter);
      match Finalized(p, d, s1, f)
      case None => Answer(s1, None)
      case Some(r) => Answer(r.0, Some(r.1))
  }

  // ---- the store and whole runs -----------------------------------------------------------------------------

  /** The ids from the oldest to the most recently touched, and their sessions. */
  datatype Store = Sessions(order: seq<Bytes>, sessions: map<Bytes, Session>)

  ghost predicate ValidStore(st: Store) {
    && Bounded(st.order) && st.sessions.Keys == ToSet(st.order)
    && forall id :: id in st.sessions ==> st.sessions[id].sessionId == id
  }

  const EMPTY := Sessions([], map[])

  function Restrict(m: map<Bytes, Session>, o: seq<Bytes>): map<Bytes, Session> { map id | id in m && id in o :: m[id] }

  /** Touch `s.sessionId` and store `s` there; the oldest session leaves a store over its bound. */
  function Stored(st: Store, s: Session): Store {
    var o := Touched(st.order, s.sessionId);
    Sessions(o, Restrict(st.sessions[s.sessionId := s], o))
  }

  datatype Endpoint = HelloCall | ExchangeCall | FinalizeCall

  datatype Request = Request(endpoint: Endpoint, raw: Bytes, draws: Draws)

  predicate TypeFits(e: Endpoint, messageType: byte) {
    match e
    case HelloCall => messageType == MT_HELLO
    case ExchangeCall => messageType == MT_CLIENT_PROOF_1
    case FinalizeCall => messageType == MT_CLIENT_PROOF_2 || messageType == MT_FINALIZE
  }

  /** The session a well-typed frame acts on: a new one for HELLO, else the stored one. */
  function SessionFor(st: Store, e: Endpoint, id: Bytes): Option<Session> {
    if e.HelloCall? then Some(Fresh(id)) else if id in st.sessions then Some(st.sessions[id]) else None
  }

  function AnswerOf(p: Primitives, cfg: Config, e: Endpoint, d: Draws, s: Session, f: Frame): Answer
    requires Lawful(p)
  {
    match e
    case HelloCall => Hello(p, cfg, d, s, f)
    case ExchangeCall => Exchange(p, cfg, d, s, f)
    case FinalizeCall => Finalize(p, d, s, f)
  }

  datatype Served = Served(store: Store, reply: Option<Bytes>)

  /** The session id a request touches: that of a well-typed frame whose session there is. */
  function TouchOf(st: Store, r: Request): Option<Bytes> {
    var f :- FrameFormat.Parse(r.raw);
    if !TypeFits(r.endpoint, f.messageType) then None
    else if SessionFor(st, r.endpoint, f.sessionId).None? then None
    else Some(f.sessionId)
  }

  function Serve(p: Primitives, cfg: Config, st: Store, r: Request): Served
    requires Lawful(p)
  {
    match TouchOf(st, r)
    case None => Served(st, None)
    case Some(id) =>
      var f := FrameFormat.Parse(r.raw).value;
      var a := AnswerOf(p, cfg, r.endpoint, r.draws, SessionFor(st, r.endpoint, id).value, f);
      Served(Stored(st, a.session), match a.frame case None => None case Some(out) => Some(Serialize(out)))
  }

  /** The store after a run of requests. */
  function After(p: Primitives, cfg: Config, st: Store, rs: seq<Request>): Store
    requires Lawful(p)
  { if rs == [] then st else Serve(p, cfg, After(p, cfg, st, rs[..|rs| - 1]), rs[|rs| - 1]).store }
}
