/** `run_session` of the client, cut at its three requests; None stands for a thrown exception. */
module ClientModel {
  import opened ByteStrings
  import opened Crypto
  import opened FrameFormat
  import opened Transcripts
  import opened Kdf
  import opened Channel
  import opened VmInputs
  import opened ServerModel
  import Isa

  /** What the client draws at random. */
  datatype ClientDraws = ClientDraws(private: Bytes, random: Bytes, sessionId: Bytes, nonce1: Bytes, nonce2: Bytes,
                                     nonce3: Bytes)

  predicate ClientSized(d: ClientDraws) {
    |d.private| == 32 && |d.random| == 16 && |d.sessionId| == 16 && |d.nonce1| == 24 && |d.nonce2| == 24
        && |d.nonce3| == 24
  }

  /** The normalized username and the license structure the user entered. */
  datatype Entry = Entry(username: Bytes, license: Bytes)

  function HelloBytes(p: Primitives, d: ClientDraws, username: Bytes): Bytes {
    p.x25519Base(d.private) + d.random + BigEndian(|username| % 0x1_0000, 2) + username
  }

  function HelloFrame(p: Primitives, d: ClientDraws, username: Bytes): Frame
    requires Lawful(p)
  {
    PlainSealed(p, Transcripts.Start(p), BootstrapMacKey(p), MT_HELLO, d.sessionId, 1, d.nonce1,
                HelloBytes(p, d, username))
  }

  /** What the client knows once it has accepted the challenge, and the proof-1 frame it sends. */
  datatype Keyed = Keyed(serverPub: Bytes, serverRandom: Bytes, salt: Bytes, keys: Keys, vm: Isa.VmResult, frame: Frame)

  function Proof1Bytes(license: Bytes, vm: VmOutput, proof1: Bytes): Bytes {
    license + vm.digest + vm.stateHash + BigEndian(vm.pathId, 4) + BigEndian(vm.haltCode, 4) + proof1
  }

  /** Keys, VM and proof 1, from the server's half and T2. */
  function KeyedBy(p: Primitives, d: ClientDraws, e: Entry, serverPub: Bytes, serverRandom: Bytes,
                   salt: Bytes): Option<Keyed>
    requires Lawful(p)
  {
    var shared :- p.x25519Shared(d.private, serverPub);
    var keys := DeriveKeys(p, HkdfExtract(p, salt, shared));
    var vm :- VmResultOf(p, Inputs(e.username, e.license, serverRandom, d.sessionId, salt), true);
    var proof1 := Proof1(p, keys.proof1, e.username, e.license, OutputOf(vm), serverRandom, d.sessionId, salt);
    Some(Keyed(serverPub, serverRandom, salt, keys, vm,
               AeadSealed(p, salt, keys.mac, keys.c2s, MT_CLIENT_PROOF_1, d.sessionId, 2, d.nonce2,
                          Proof1Bytes(e.license, OutputOf(vm), proof1))))
  }

  /** The server's challenge; the type, the session id and the counter of the reply are not looked at. */
  function OnChallenge(p: Primitives, signPublic: Bytes, d: ClientDraws, e: Entry, raw: Bytes): Option<Keyed>
    requires Lawful(p)
  {
    var t1 := Absorbed(p, Transcripts.Start(p), HelloFrame(p, d, e.username));
    var f :- Parse(raw);
    var t2 :- Opened(p, t1, BootstrapMacKey(p), f);
    if |f.payload| < 112 then None
    else
      var serverPub, serverRandom, signature := f.payload[..32], f.payload[32..48], f.payload[48..112];
      if !p.verify(signPublic, SignedData(t1, serverPub, serverRandom), signature) then None
      else KeyedBy(p, d, e, serverPub, serverRandom, t2)
  }

  datatype Proved = Proved(challenge2: Bytes, t4: Bytes, frame: Frame)

  /** The server's proof. */
  function OnServerProof(p: Primitives, d: ClientDraws, c: Keyed, raw: Bytes): Option<Proved>
    requires Lawful(p)
  {
    var t3 := Absorbed(p, c.salt, c.frame);
    var f :- Parse(raw);
    var got :- AeadOpened(p, t3, c.keys.mac, c.keys.s2c, f);
    if |got.payload| != 48 then None
    else
      var challenge2 := got.payload[32..48];
      if got.payload[..32] != ServerProof1(p, c.keys.sproof1, t3, c.vm.digest, challenge2) then None
      else
        var proof2 := Proof2(p, c.keys.proof2, challenge2, c.serverRandom, c.serverPub, c.vm.digest, c.salt);
        Some(Proved(challenge2, got.state,
                    AeadSealed(p, got.state, c.keys.mac, c.keys.c2s, MT_CLIENT_PROOF_2, d.sessionId, 3, d.nonce3,
                               proof2)))
  }

  /** The sealed flag: the outer layer, then the inner one under the key of T5. */
  function OnSealedFlag(p: Primitives, c: Keyed, b: Proved, raw: Bytes): Option<Bytes>
    requires Lawful(p)
  {
    var t5 := Absorbed(p, b.t4, b.frame);
    var f :- Parse(raw);
    var got :- AeadOpened(p, t5, c.keys.mac, c.keys.s2c, f);
    if |got.payload| < 40 then None
    else
      var n := |got.payload| - 16;
      AeadDecrypt(p, SealKey(p, c.keys, t5), got.payload[..24], got.payload[24..n], got.payload[n..], t5)
  }
}
