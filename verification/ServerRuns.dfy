/**
 What each request keeps, whatever its bytes: a session's transcript is the rolling fold of the frames it
 accepted and emitted, and its counters only grow.
 */
module ServerRuns {
  import opened ByteStrings
  import opened Crypto
  import opened FrameFormat
  import opened Transcripts
  import opened Kdf
  import opened Channel
  import opened Usernames
  import opened ServerModel

  // ---- what a session has seen ------------------------------------------------------------------------------

  /** A frame that was answered, and the answer. */
  datatype Round = Round(request: Bytes, reply: Bytes)

  function Flat(log: seq<Round>): (history: seq<Bytes>)
    ensures |history| == 2 * |log|
  {
    if log == [] then [] else Flat(log[..|log| - 1]) + [log[|log| - 1].request, log[|log| - 1].reply]
  }

  /** Request j of the log is a frame of this session, and its answer carries server counter j + 1. */
  predicate RoundFits(log: seq<Round>, j: nat, id: Bytes)
    requires j < |log|
  {
    var f, g := Parse(log[j].request), Parse(log[j].reply);
    && f.Some? && f.value.sessionId == id
    && g.Some? && g.value.sessionId == id && g.value.counter == j + 1
  }

  function RequestCounter(log: seq<Round>, j: nat): nat
    requires j < |log|
  { match Parse(log[j].request) case None => 0 case Some(f) => f.counter }

  ghost predicate LogFits(log: seq<Round>, id: Bytes, last: nat) {
    && (forall j :: 0 <= j < |log| ==> RoundFits(log, j, id))
    && (forall i, j :: 0 <= i < j < |log| ==> RequestCounter(log, i) < RequestCounter(log, j))
    && (forall j :: 0 <= j < |log| ==> RequestCounter(log, j) <= last)
  }

  ghost predicate SessionFits(p: Primitives, s: Session, log: seq<Round>)
    requires Lawful(p)
  {
    && LogFits(log, s.sessionId, s.clientCounter)
    && s.serverCounter == |log| <= s.clientCounter < Pow256(8)
    && (s.keys.Some? <==> log != [])
    && (log == [] ==> !s.proof1Ok)
    && (log != [] ==>
          && s.keys == Some(DeriveKeys(p, s.prk))
          && s.transcript == Rolled(p, Flat(log))
          && s.salt == Rolled(p, Flat(log[..1])))
  }

  // ---- one more round ---------------------------------------------------------------------------------------

  lemma FlatAppend(p: Primitives, log: seq<Round>, r: Round)
    requires Lawful(p)
    ensures Rolled(p, Flat(log + [r])) == Sha256(p, Sha256(p, Rolled(p, Flat(log)) + r.request) + r.reply)
  {
    hide Sha256, Lawful, Rolled;
    assert (log + [r])[..|log|] == log;
    assert Flat(log + [r]) == Flat(log) + [r.request] + [r.reply];
    RolledAppend(p, Flat(log), r.request);
    RolledAppend(p, Flat(log) + [r.request], r.reply);
  }

  lemma LogGrows(log: seq<Round>, id: Bytes, last: nat, f: Frame, g: Frame)
    requires LogFits(log, id, last) && WellFormed(f) && WellFormed(g)
    requires f.sessionId == g.sessionId == id && last < f.counter && g.counter == |log| + 1
    ensures LogFits(log + [Round(Serialize(f), Serialize(g))], id, f.counter)
  {
    ParseSerialize(f);
    ParseSerialize(g);
    hide Parse, Serialize, WellFormed;
    var r := Round(Serialize(f), Serialize(g));
    var grown := log + [r];
    forall j | 0 <= j < |log| ensures RoundFits(grown, j, id) && RequestCounter(grown, j) == RequestCounter(log, j) {
      assert grown[j] == log[j] && RoundFits(log, j, id);
    }
    assert grown[|log|] == r;
  }

  lemma LaterCounterFits(log: seq<Round>, id: Bytes, last: nat, later: nat)
    requires LogFits(log, id, last) && last <= later
    ensures LogFits(log, id, later)
  {}

  /** An answered frame extends the log of a session that has its keys. */
  lemma RoundKeepsFit(p: Primitives, s: Session, log: seq<Round>, f: Frame, g: Frame, s': Session)
    requires Lawful(p) && SessionFits(p, s, log) && log != []
    requires WellFormed(f) && WellFormed(g) && f.sessionId == g.sessionId == s.sessionId
    requires s.clientCounter < f.counter && g.counter == s.serverCounter + 1
    requires s' == s.(clientCounter := f.counter, serverCounter := s.serverCounter + 1,
                      transcript := Absorbed(p, Absorbed(p, s.transcript, f), g),
                      challenge2 := s'.challenge2, vmDigest := s'.vmDigest, proof1Ok := s'.proof1Ok)
    ensures SessionFits(p, s', log + [Round(Serialize(f), Serialize(g))])
  {
    hide Lawful, LogFits, Serialize, Sha256, DeriveKeys, Rolled, Flat, Pow256;
    var r := Round(Serialize(f), Serialize(g));
    FlatAppend(p, log, r);
    LogGrows(log, s.sessionId, s.clientCounter, f, g);
    assert (log + [r])[..1] == log[..1];
  }

  /** The first round: the session gets its keys. */
  lemma FirstRoundFits(p: Primitives, s: Session, f: Frame, g: Frame)
    requires Lawful(p) && WellFormed(f) && WellFormed(g) && f.sessionId == g.sessionId == s.sessionId && g.counter == 1
    requires s.clientCounter == f.counter > 0 && s.serverCounter == 1
    requires s.keys == Some(DeriveKeys(p, s.prk))
    requires s.transcript == s.salt == Absorbed(p, Absorbed(p, Transcripts.Start(p), f), g)
    ensures SessionFits(p, s, [Round(Serialize(f), Serialize(g))])
  {
    hide Lawful, LogFits, Serialize, Sha256, DeriveKeys;
    var r := Round(Serialize(f), Serialize(g));
    var none: seq<Round> := [];
    FlatAppend(p, none, r);
    EmptyLogFits(s.sessionId, 0);
    LogGrows(none, s.sessionId, 0, f, g);
    assert none + [r] == [r] && [r][..1] == [r];
    hide Rolled;
  }

  lemma EmptyLogFits(id: Bytes, last: nat)
    ensures LogFits([], id, last)
  {}

  // ---- each request keeps the fit ---------------------------------------------------------------------------

  function Extended(log: seq<Round>, f: Frame, reply: Option<Frame>): seq<Round> {
    match reply case None => log case Some(g) => log + [Round(Serialize(f), Serialize(g))]
  }

  lemma ChallengedShape(p: Primitives, cfg: Config, d: Draws, s: Session, t1: Bytes)
    requires Lawful(p) && Sized(d) && |s.sessionId| == 16 && s.serverCounter + 1 < Pow256(8)
    ensures var r := Challenged(p, cfg, d, s, t1);
            r.Some? ==>
              var (s', g) := r.value;
              && WellFormed(g) && g.sessionId == s.sessionId && g.counter == s.serverCounter + 1
              && s' == s.(serverCounter := s.serverCounter + 1, prk := s'.prk, keys := Some(DeriveKeys(p, s'.prk)),
                          transcript := Absorbed(p, t1, g), salt := Absorbed(p, t1, g), serverRandom := d.random,
                          serverPub := s'.serverPub)
  {
    hide BootstrapMacKey, DeriveKeys, Pow256, Sha256, Hmac, PreMac, SignedData;
    assert |p.x25519Base(d.private)| == 32;
  }

  /** A HELLO leaves a session with at most its own round, and without a proof, whatever was there before. */
  lemma HelloKeeps(p: Primitives, cfg: Config, d: Draws, f: Frame)
    requires Lawful(p) && Sized(d) && WellFormed(f)
    ensures var a := Hello(p, cfg, d, Fresh(f.sessionId), f);
            && a.session.sessionId == f.sessionId && !a.session.proof1Ok
            && SessionFits(p, a.session, Extended([], f, a.frame))
  {
    hide Lawful, LogFits, Serialize, Sha256, Challenged, BootstrapMacKey, DeriveKeys, ParseHello, Normalized, PreMac,
         Hmac;
    assert 1 < Pow256(8) by { Pow256Values(); }
    hide Pow256;
    var a := Hello(p, cfg, d, Fresh(f.sessionId), f);
    EmptyLogFits(f.sessionId, a.session.clientCounter);
    if a.frame.Some? {
      var t1 := Absorbed(p, Transcripts.Start(p), f);
      var h := ParseHello(f.payload).value;
      var s := Fresh(f.sessionId).(clientCounter := f.counter, username := Normalized(h.username).value,
                                   clientPub := h.clientPub);
      ChallengedShape(p, cfg, d, s, t1);
      FirstRoundFits(p, a.session, f, a.frame.value);
      assert [] + [Round(Serialize(f), Serialize(a.frame.value))] == [Round(Serialize(f), Serialize(a.frame.value))];
    }
  }

  lemma AeadOpenedState(p: Primitives, state: Bytes, macKey: Bytes, aeadKey: Bytes, f: Frame)
    requires Lawful(p)
    ensures var got := AeadOpened(p, state, macKey, aeadKey, f); got.Some? ==> got.value.state == Absorbed(p, state, f)
  {
    hide Lawful, Absorbed, AeadDecrypt, Hmac;
  }

  lemma SealedShape(p: Primitives, state: Bytes, keys: Keys, messageType: byte, id: Bytes, counter: nat, nonce: Bytes,
                    plaintext: Bytes)
    requires Lawful(p) && |id| == 16 && counter < Pow256(8) && |nonce| == 24 && |plaintext| <= MAX_PAYLOAD
    ensures var g := AeadSealed(p, state, keys.mac, keys.s2c, messageType, id, counter, nonce, plaintext);
            WellFormed(g) && g.sessionId == id && g.counter == counter && g.messageType == messageType
  {
    hide AeadSealed, Pow256, Absorbed, AeadOpened, Lawful;
    AeadRoundTrip(p, state, keys.mac, keys.s2c, messageType, id, counter, nonce, plaintext);
  }

  /** What an answered exchange or finalize does to the session: these fields and no others. */
  ghost predicate Advances(p: Primitives, s: Session, f: Frame, s': Session, g: Frame)
    requires Lawful(p)
  {
    && WellFormed(g) && g.sessionId == s.sessionId && g.counter == s.serverCounter + 1
    && s' == s.(serverCounter := s.serverCounter + 1, transcript := Absorbed(p, Absorbed(p, s.transcript, f), g),
                challenge2 := s'.challenge2, vmDigest := s'.vmDigest, proof1Ok := s'.proof1Ok)
  }

  lemma ExchangedShape(p: Primitives, cfg: Config, d: Draws, s: Session, f: Frame)
    requires Lawful(p) && Sized(d) && |s.sessionId| == 16 && s.serverCounter + 1 < Pow256(8)
    ensures var r := Exchanged(p, cfg, d, s, f);
            r.Some? ==>
              && Advances(p, s, f, r.value.0, r.value.1) && s.keys.Some? && r.value.0.proof1Ok
              && r.value.0.challenge2 == d.random
  {
    hide Lawful, Proves, AeadOpened, AeadSealed, WellFormed, Pow256, Absorbed, ServerProof1, ParseProof1;
    if Exchanged(p, cfg, d, s, f).Some? {
      var keys := s.keys.value;
      AeadOpenedState(p, s.transcript, keys.mac, keys.c2s, f);
      var got := AeadOpened(p, s.transcript, keys.mac, keys.c2s, f).value;
      var sproof := ServerProof1(p, keys.sproof1, got.state, ParseProof1(got.payload).vm.digest, d.random);
      SealedShape(p, got.state, keys, MT_SERVER_PROOF_1, s.sessionId, s.serverCounter + 1, d.nonce, sproof + d.random);
    }
  }

  lemma FinalizedShape(p: Primitives, d: Draws, s: Session, f: Frame)
    requires Lawful(p) && Sized(d) && |s.sessionId| == 16 && s.serverCounter + 1 < Pow256(8)
    ensures var r := Finalized(p, d, s, f);
            r.Some? ==>
              && Advances(p, s, f, r.value.0, r.value.1) && s.keys.Some? && s.proof1Ok && r.value.0.proof1Ok
              && r.value.0.challenge2 == s.challenge2 && r.value.0.vmDigest == s.vmDigest
  {
    hide Lawful, AeadOpened, AeadSealed, WellFormed, Pow256, Absorbed, Proof2, SealedBlob;
    if Finalized(p, d, s, f).Some? {
      var keys := s.keys.value;
      AeadOpenedState(p, s.transcript, keys.mac, keys.c2s, f);
      var got := AeadOpened(p, s.transcript, keys.mac, keys.c2s, f).value;
      BlobSize(p, keys, got.state, d.sealNonce);
      SealedShape(p, got.state, keys, MT_SEALED_FLAG, s.sessionId, s.serverCounter + 1, d.nonce,
                  SealedBlob(p, keys, got.state, d.sealNonce));
    }
  }

  lemma BlobSize(p: Primitives, keys: Keys, t5: Bytes, sealNonce: Bytes)
    requires Lawful(p) && |sealNonce| == 24
    ensures |SealedBlob(p, keys, t5, sealNonce)| == 24 + |FLAG| + 16 <= MAX_PAYLOAD
  {
    hide Lawful, AeadEncrypt, SealKey, Ascii;
  }

  /** A rejected exchange or finalize changes nothing but the client counter, which never falls. */
  lemma RejectionChangesCounterOnly(p: Primitives, cfg: Config, e: Endpoint, d: Draws, s: Session, f: Frame)
    requires Lawful(p) && !e.HelloCall?
    ensures var a := AnswerOf(p, cfg, e, d, s, f);
            a.frame.None? ==>
              && a.session == s.(clientCounter := a.session.clientCounter)
              && a.session.clientCounter == if f.counter > s.clientCounter then f.counter else s.clientCounter
  {
    hide Lawful, Exchanged, Finalized;
  }

  /** An exchange or a finalize on a session that fits its log, answered or not. */
  lemma LaterKeeps(p: Primitives, cfg: Config, e: Endpoint, d: Draws, s: Session, log: seq<Round>, f: Frame)
    requires Lawful(p) && Sized(d) && WellFormed(f) && !e.HelloCall?
    requires SessionFits(p, s, log) && s.sessionId == f.sessionId
    ensures var a := AnswerOf(p, cfg, e, d, s, f);
            && a.session.sessionId == f.sessionId
            && SessionFits(p, a.session, Extended(log, f, a.frame))
  {
    hide Lawful, Exchanged, Finalized, LogFits, Serialize, Absorbed, Rolled, DeriveKeys, Pow256, Flat;
    var a := AnswerOf(p, cfg, e, d, s, f);
    if s.clientCounter < f.counter {
      var s1 := s.(clientCounter := f.counter);
      if a.frame.Some? {
        if e.ExchangeCall? { ExchangedShape(p, cfg, d, s1, f); } else { FinalizedShape(p, d, s1, f); }
        RoundKeepsFit(p, s, log, f, a.frame.value, a.session);
      } else {
        LaterCounterFits(log, s.sessionId, s.clientCounter, f.counter);
      }
    }
  }
}
