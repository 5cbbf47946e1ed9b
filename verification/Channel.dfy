/** Sealing and opening payloads on a transcript, and the inputs of the two client proofs. */
module Channel {
  import opened ByteStrings
  import opened Crypto
  import opened FrameFormat
  import opened Transcripts

  function AeadEncrypt(p: Primitives, key: Bytes, nonce: Bytes, plaintext: Bytes, aad: Bytes): (r: (Bytes, Bytes))
    requires Lawful(p)
    ensures |r.0| == |plaintext| && |r.1| == 16
  { p.aeadEncrypt(key, nonce, plaintext, aad) }

  function AeadDecrypt(p: Primitives, key: Bytes, nonce: Bytes, ciphertext: Bytes, tag: Bytes,
                       aad: Bytes): Option<Bytes> {
    p.aeadDecrypt(key, nonce, ciphertext, tag, aad)
  }

  lemma DecryptEncrypted(p: Primitives, key: Bytes, nonce: Bytes, plaintext: Bytes, aad: Bytes)
    requires Lawful(p)
    ensures var c := AeadEncrypt(p, key, nonce, plaintext, aad);
            AeadDecrypt(p, key, nonce, c.0, c.1, aad) == Some(plaintext)
  {}

  // ---- frames in the clear ----------------------------------------------------------------------------------

  function PlainSealed(p: Primitives, state: Bytes, macKey: Bytes, messageType: byte, sessionId: Bytes, counter: nat,
                       nonce: Bytes, payload: Bytes): Frame
    requires Lawful(p)
  { Sealed(p, state, macKey, Frame(messageType, sessionId, counter, nonce, payload, Zeros(16), Zeros(32))) }

  // ---- encrypted frames -------------------------------------------------------------------------------------

  /** The header is the associated data; it needs only the length of the payload. */
  function AeadSealed(p: Primitives, state: Bytes, macKey: Bytes, aeadKey: Bytes, messageType: byte, sessionId: Bytes,
                      counter: nat, nonce: Bytes, plaintext: Bytes): Frame
    requires Lawful(p)
  {
    var c := AeadEncrypt(p, aeadKey, nonce, plaintext, Header(messageType, sessionId, counter, nonce, |plaintext|));
    Sealed(p, state, macKey, Frame(messageType, sessionId, counter, nonce, c.0, c.1, Zeros(32)))
  }

  datatype Delivery = Delivery(state: Bytes, payload: Bytes)

  /** The MAC is checked first; a frame that does not open leaves no new state behind. */
  function AeadOpened(p: Primitives, state: Bytes, macKey: Bytes, aeadKey: Bytes, f: Frame): Option<Delivery>
    requires Lawful(p)
  {
    var t :- Opened(p, state, macKey, f);
    var payload :- AeadDecrypt(p, aeadKey, f.nonce, f.payload, f.tag,
                               Header(f.messageType, f.sessionId, f.counter, f.nonce, |f.payload|));
    Some(Delivery(t, payload))
  }

  /**
   The bytes of an encrypted frame open exactly when the MAC in the last 32 is right and the primitive decrypts
   the payload with the first 58 bytes as associated data.
   */
  lemma DeliversExactly(p: Primitives, state: Bytes, macKey: Bytes, aeadKey: Bytes, raw: Bytes)
    requires Lawful(p) && Parse(raw).Some?
    ensures var n := |raw|;
            && n >= 106
            && var plain := p.aeadDecrypt(aeadKey, raw[30..54], raw[58..n - 48], raw[n - 48..n - 32], raw[..58]);
            AeadOpened(p, state, macKey, aeadKey, Parse(raw).value) ==
            if raw[n - 32..] != p.hmac(macKey, state + raw[..n - 32]) || plain.None? then None
            else Some(Delivery(p.sha256(state + raw), plain.value))
  {
    FieldsOf(raw);
    OpensExactly(p, state, macKey, raw);
    hide Parse, Opened, Lawful, Header;
  }

  /** What one side seals, the other opens to the same payload, and both end in the same state. */
  lemma AeadRoundTrip(p: Primitives, state: Bytes, macKey: Bytes, aeadKey: Bytes, messageType: byte, sessionId: Bytes,
                      counter: nat, nonce: Bytes, plaintext: Bytes)
    requires Lawful(p)
    ensures var f := AeadSealed(p, state, macKey, aeadKey, messageType, sessionId, counter, nonce, plaintext);
            && AeadOpened(p, state, macKey, aeadKey, f) == Some(Delivery(Absorbed(p, state, f), plaintext))
            && f.messageType == messageType && f.sessionId == sessionId && f.counter == counter && f.nonce == nonce
            && |f.payload| == |plaintext| && |f.tag| == 16 && |f.mac| == 32
  {
    hide AeadEncrypt, AeadDecrypt, Lawful, Header, Absorbed;
    var aad := Header(messageType, sessionId, counter, nonce, |plaintext|);
    DecryptEncrypted(p, aeadKey, nonce, plaintext, aad);
    var c := AeadEncrypt(p, aeadKey, nonce, plaintext, aad);
    OpenSealed(p, state, macKey, Frame(messageType, sessionId, counter, nonce, c.0, c.1, Zeros(32)));
  }

  lemma PlainRoundTrip(p: Primitives, state: Bytes, macKey: Bytes, messageType: byte, sessionId: Bytes,
                       counter: nat, nonce: Bytes, payload: Bytes)
    requires Lawful(p)
    ensures var f := PlainSealed(p, state, macKey, messageType, sessionId, counter, nonce, payload);
            && Opened(p, state, macKey, f) == Some(Absorbed(p, state, f))
            && f.messageType == messageType && f.sessionId == sessionId && f.counter == counter && f.nonce == nonce
            && f.payload == payload && |f.tag| == 16 && |f.mac| == 32
  {
    hide Lawful, Absorbed, Opened;
    OpenSealed(p, state, macKey, Frame(messageType, sessionId, counter, nonce, payload, Zeros(16), Zeros(32)));
  }

  // ---- the same on a transcript object ----------------------------------------------------------------------

  method AeadSeal(p: Primitives, t: Transcript, macKey: Bytes, aeadKey: Bytes, messageType: byte, sessionId: Bytes,
                  counter: nat, nonce: Bytes, plaintext: Bytes) returns (f: Frame)
    requires Lawful(p)
    modifies t
    ensures f == AeadSealed(p, old(t.state), macKey, aeadKey, messageType, sessionId, counter, nonce, plaintext)
    ensures t.state == Absorbed(p, old(t.state), f)
  {
    hide Lawful, Header, Absorbed, Sealed, AeadEncrypt;
    var aad := Header(messageType, sessionId, counter, nonce, |plaintext|);
    var c := AeadEncrypt(p, aeadKey, nonce, plaintext, aad);
    f := t.SealFrame(p, macKey, messageType, sessionId, counter, nonce, c.0, c.1);
  }

  method AeadOpen(p: Primitives, t: Transcript, macKey: Bytes, aeadKey: Bytes, f: Frame) returns (r: Option<Bytes>)
    requires Lawful(p)
    modifies t
    ensures r == match AeadOpened(p, old(t.state), macKey, aeadKey, f) case None => None case Some(d) => Some(d.payload)
    ensures r.Some? ==> t.state == AeadOpened(p, old(t.state), macKey, aeadKey, f).value.state
    ensures var matches := f.mac == p.hmac(macKey, old(t.state) + PreMac(f));
            && t.state == (if matches then p.sha256(old(t.state) + Serialize(f)) else old(t.state))
            && (!matches ==> r.None?)
  {
    hide Lawful, Header, AeadDecrypt, Opened;
    var ok := t.OpenFrame(p, macKey, f);
    if !ok { return None; }
    r := AeadDecrypt(p, aeadKey, f.nonce, f.payload, f.tag,
                     Header(f.messageType, f.sessionId, f.counter, f.nonce, |f.payload|));
  }

  // ---- proofs -----------------------------------------------------------------------------------------------

  /** What travels from the VM into the first proof, with the two words as numbers. */
  datatype VmOutput = VmOutput(digest: Bytes, stateHash: Bytes, pathId: nat, haltCode: nat)

  function Proof1(p: Primitives, key: Bytes, username: Bytes, license: Bytes, vm: VmOutput, serverRandom: Bytes,
                  sessionId: Bytes, prefix: Bytes): (r: Bytes)
    requires Lawful(p)
    ensures |r| == 32
  {
    Hmac(p, key, Ascii("RG6-PROOF1/v6") + BigEndian(|username|, 2) + username + license + vm.digest + vm.stateHash
                 + BigEndian(vm.pathId, 4) + BigEndian(vm.haltCode, 4) + serverRandom + sessionId + prefix)
  }

  function Proof2(p: Primitives, key: Bytes, challenge2: Bytes, serverRandom: Bytes, serverPub: Bytes, digest: Bytes,
                  prefix: Bytes): (r: Bytes)
    requires Lawful(p)
    ensures |r| == 32
  { Hmac(p, key, Ascii("RG6-PROOF2/v6") + challenge2 + serverRandom + serverPub + digest + prefix) }

  function ServerProof1(p: Primitives, key: Bytes, state: Bytes, digest: Bytes, challenge2: Bytes): (r: Bytes)
    requires Lawful(p)
    ensures |r| == 32
  { Hmac(p, key, Ascii("RG6-SPROOF1/v6") + state + digest + challenge2) }
}
