/** The whole honest run with foreign requests between the client's three calls. */
module Interleaving {
  import opened ByteStrings
  import opened Crypto
  import opened FrameFormat
  import opened Transcripts
  import opened Usernames
  import opened Recency
  import opened ServerModel
  import opened ServerSafety
  import opened ClientModel
  import opened HonestRun

  /** None of the requests is a frame of session `id`. */
  ghost predicate Foreign(rs: seq<Request>, id: Bytes) {
    forall i :: 0 <= i < |rs| ==> Parse(rs[i].raw).None? || Parse(rs[i].raw).value.sessionId != id
  }

  lemma {:induction false} ForeignTouches(p: Primitives, cfg: Config, st: Store, rs: seq<Request>, id: Bytes)
    requires Lawful(p) && Foreign(rs, id)
    ensures id !in Touches(p, cfg, st, rs)
  {
    hide Lawful, Parse, Serve;
    if rs != [] { ForeignTouches(p, cfg, st, rs[..|rs| - 1], id); }
  }

  /** A session no request touches is either dropped or as it was. */
  lemma {:induction false} StaysOrGoes(p: Primitives, cfg: Config, st: Store, rs: seq<Request>, id: Bytes)
    requires Lawful(p) && ValidStore(st) && AllSized(rs) && Foreign(rs, id)
    ensures var st' := After(p, cfg, st, rs);
            id in st'.sessions ==> id in st.sessions && st'.sessions[id] == st.sessions[id]
  {
    hide Lawful, ValidStore, Serve, Parse;
    if rs != [] {
      var before, r := rs[..|rs| - 1], rs[|rs| - 1];
      StaysOrGoes(p, cfg, st, before, id);
      OrderOfRun(p, cfg, st, before);
      ForeignTouch(p, cfg, After(p, cfg, st, before), r, id);
      UntouchedSessionsStay(p, cfg, After(p, cfg, st, before), r, id);
    }
  }

  lemma ForeignTouch(p: Primitives, cfg: Config, st: Store, r: Request, id: Bytes)
    requires Lawful(p) && (Parse(r.raw).None? || Parse(r.raw).value.sessionId != id)
    ensures TouchOf(st, r) != Some(id)
  {
    hide Lawful, Parse;
  }

  /** After its own touch a session survives, unchanged, exactly while foreign requests touch fewer than 1024 ids. */
  lemma SurvivesExactly(p: Primitives, cfg: Config, o: seq<Bytes>, st: Store, rs: seq<Request>, id: Bytes)
    requires Lawful(p) && ValidStore(st) && AllSized(rs) && Foreign(rs, id)
    requires Bounded(o) && st.order == Touched(o, id)
    ensures var st' := After(p, cfg, st, rs);
            && ValidStore(st')
            && (id in st'.sessions <==> |ToSet(Touches(p, cfg, st, rs))| < 1024)
            && (id in st'.sessions ==> id in st.sessions && st'.sessions[id] == st.sessions[id])
  {
    ForeignTouches(p, cfg, st, rs, id);
    OrderOfRun(p, cfg, st, rs);
    StaysOrGoes(p, cfg, st, rs, id);
    DroppedExactly(o, id, Touches(p, cfg, st, rs));
    KeysAreOrder(After(p, cfg, st, rs));
    hide Lawful, ValidStore, Touched, Bounded, After, Touches, Foreign;
  }

  lemma KeysAreOrder(st: Store)
    requires ValidStore(st)
    ensures Bounded(st.order) && forall id :: id in st.sessions <==> id in st.order
  {}

  /** One of the client's own calls. */
  lemma OwnCall(p: Primitives, cfg: Config, st: Store, e: Endpoint, f: Frame, ds: Draws)
    requires Lawful(p) && ValidStore(st) && Sized(ds) && WellFormed(f) && TypeFits(e, f.messageType)
    ensures var s, r := SessionFor(st, e, f.sessionId), Serve(p, cfg, st, Request(e, Serialize(f), ds));
            && (s.None? ==> r == Served(st, None))
            && (s.Some? ==>
                  var a := AnswerOf(p, cfg, e, ds, s.value, f);
                  && ValidStore(r.store) && r.store.order == Touched(st.order, f.sessionId)
                  && f.sessionId in r.store.sessions && r.store.sessions[f.sessionId] == a.session
                  && r.reply == match a.frame case None => None case Some(g) => Some(Serialize(g)))
  {
    ParseSerialize(f);
    hide Lawful, ValidStore, Stored, Parse, Serialize, AnswerOf, TypeFits, WellFormed, Touched;
    var r := Request(e, Serialize(f), ds);
    if SessionFor(st, e, f.sessionId).Some? {
      ServeTouches(p, cfg, st, r);
      StoredIs(st, AnswerOf(p, cfg, e, ds, SessionFor(st, e, f.sessionId).value, f).session);
    }
  }

  // ---- the three calls --------------------------------------------------------------------------------------

  lemma FirstCall(p: Primitives, cfg: Config, st: Store, d: ClientDraws, e: Entry, ds: Draws)
    requires Lawful(p) && ValidStore(st) && Sized(ds) && ClientSized(d) && Canonical(e.username)
    ensures var r := Serve(p, cfg, st, Request(HelloCall, Serialize(HelloFrame(p, d, e.username)), ds));
            && ValidStore(r.store) && r.store.order == Touched(st.order, d.sessionId) && d.sessionId in r.store.sessions
            && r.reply.Some?
            && var c := OnChallenge(p, p.signPublic(cfg.signSeed), d, e, r.reply.value);
            && c.Some? && AgreeOnKeys(r.store.sessions[d.sessionId], d, e, c.value)
            && KeyedBy(p, d, e, c.value.serverPub, c.value.serverRandom, c.value.salt) == c
  {
    hide Lawful, ValidStore, Serialize, Hello, HelloFrame, Serve, OnChallenge, KeyedBy, Touched, AgreeOnKeys, Canonical,
         WellFormed, HelloBytes;
    HelloFrameShape(p, d, e.username);
    HelloStage(p, cfg, ds, d, e);
    OwnCall(p, cfg, st, HelloCall, HelloFrame(p, d, e.username), ds);
  }

  lemma SecondCall(p: Primitives, cfg: Config, st: Store, d: ClientDraws, e: Entry, c: Keyed, ds: Draws)
    requires Lawful(p) && ValidStore(st) && Sized(ds) && ClientSized(d) && Honest(p, cfg, e)
    requires KeyedBy(p, d, e, c.serverPub, c.serverRandom, c.salt) == Some(c)
    requires d.sessionId in st.sessions && AgreeOnKeys(st.sessions[d.sessionId], d, e, c)
    ensures var r := Serve(p, cfg, st, Request(ExchangeCall, Serialize(c.frame), ds));
            && ValidStore(r.store) && r.store.order == Touched(st.order, d.sessionId) && d.sessionId in r.store.sessions
            && r.reply.Some?
            && var b := OnServerProof(p, d, c, r.reply.value);
            && b.Some? && AgreeOnProof(p, r.store.sessions[d.sessionId], d, c, b.value)
  {
    hide Lawful, ValidStore, Serialize, Exchange, Serve, OnServerProof, KeyedBy, Touched, AgreeOnKeys, AgreeOnProof,
         Honest, WellFormed;
    ExchangeStage(p, cfg, ds, st.sessions[d.sessionId], d, e, c);
    OwnCall(p, cfg, st, ExchangeCall, c.frame, ds);
  }

  lemma ThirdCall(p: Primitives, cfg: Config, st: Store, d: ClientDraws, c: Keyed, b: Proved, ds: Draws)
    requires Lawful(p) && ValidStore(st) && Sized(ds) && ClientSized(d)
    requires d.sessionId in st.sessions && AgreeOnProof(p, st.sessions[d.sessionId], d, c, b)
    ensures var r := Serve(p, cfg, st, Request(FinalizeCall, Serialize(b.frame), ds));
            && r.reply.Some? && OnSealedFlag(p, c, b, r.reply.value) == Some(FLAG)
            && d.sessionId in r.store.sessions && Parse(r.reply.value).Some?
            && r.store.sessions[d.sessionId].transcript ==
               Absorbed(p, Absorbed(p, b.t4, b.frame), Parse(r.reply.value).value)
  {
    hide Lawful, ValidStore, Serialize, Parse, Finalize, Serve, OnSealedFlag, Touched, AgreeOnProof, WellFormed,
         Absorbed;
    FinalizeStage(p, ds, st.sessions[d.sessionId], d, c, b);
    OwnCall(p, cfg, st, FinalizeCall, b.frame, ds);
  }

  // ---- the run ----------------------------------------------------------------------------------------------

  /** A call on a session the store has dropped is not answered. */
  lemma DroppedIsUnknown(p: Primitives, cfg: Config, st: Store, e: Endpoint, f: Frame, ds: Draws)
    requires Lawful(p) && ValidStore(st) && Sized(ds) && WellFormed(f) && TypeFits(e, f.messageType)
    requires !e.HelloCall? && f.sessionId !in st.sessions
    ensures Serve(p, cfg, st, Request(e, Serialize(f), ds)).reply.None?
  {
    hide Lawful, ValidStore, Serialize, Serve, WellFormed, TypeFits;
    OwnCall(p, cfg, st, e, f, ds);
  }

  lemma Proof1FrameFits(p: Primitives, cfg: Config, s: Session, d: ClientDraws, e: Entry, c: Keyed, ds: Draws)
    requires Lawful(p) && Sized(ds) && ClientSized(d) && Honest(p, cfg, e) && AgreeOnKeys(s, d, e, c)
    requires KeyedBy(p, d, e, c.serverPub, c.serverRandom, c.salt) == Some(c)
    ensures WellFormed(c.frame) && c.frame.messageType == MT_CLIENT_PROOF_1 && c.frame.sessionId == d.sessionId
  {
    ExchangeStage(p, cfg, ds, s, d, e, c);
  }

  /**
   From any store, for all randomness, every canonical username and its license: the HELLO is answered and
   accepted; the exchange is answered, and its answer accepted, exactly when fewer than 1024 foreign ids were
   touched since the HELLO.
   */
  lemma HonestExchange(p: Primitives, cfg: Config, st: Store, d: ClientDraws, e: Entry, ds1: Draws,
                       others: seq<Request>, ds2: Draws)
    requires Lawful(p) && ValidStore(st) && ClientSized(d) && Honest(p, cfg, e) && Sized(ds1) && Sized(ds2)
    requires AllSized(others) && Foreign(others, d.sessionId)
    ensures var r1 := Serve(p, cfg, st, Request(HelloCall, Serialize(HelloFrame(p, d, e.username)), ds1));
            && r1.reply.Some?
            && var c := OnChallenge(p, p.signPublic(cfg.signSeed), d, e, r1.reply.value);
            && c.Some?
            && var st2 := After(p, cfg, r1.store, others);
            && var r2 := Serve(p, cfg, st2, Request(ExchangeCall, Serialize(c.value.frame), ds2));
            && (r2.reply.Some? <==> |ToSet(Touches(p, cfg, r1.store, others))| < 1024)
            && (r2.reply.Some? ==>
                  && ValidStore(r2.store) && r2.store.order == Touched(st2.order, d.sessionId) && Bounded(st2.order)
                  && d.sessionId in r2.store.sessions
                  && var b := OnServerProof(p, d, c.value, r2.reply.value);
                  && b.Some? && AgreeOnProof(p, r2.store.sessions[d.sessionId], d, c.value, b.value))
  {
    KeysAreOrder(st);
    hide Lawful, ValidStore, Serialize, Serve, OnChallenge, OnServerProof, KeyedBy, Touched, Touches, After,
         AgreeOnKeys, AgreeOnProof,
         Foreign, HelloFrame, ToSet, WellFormed, Bounded, ClientSized, Sized, Canonical;
    FirstCall(p, cfg, st, d, e, ds1);
    var r1 := Serve(p, cfg, st, Request(HelloCall, Serialize(HelloFrame(p, d, e.username)), ds1));
    var c := OnChallenge(p, p.signPublic(cfg.signSeed), d, e, r1.reply.value).value;
    SurvivesExactly(p, cfg, st.order, r1.store, others, d.sessionId);
    var st2 := After(p, cfg, r1.store, others);
    Proof1FrameFits(p, cfg, r1.store.sessions[d.sessionId], d, e, c, ds2);
    if d.sessionId in st2.sessions {
      SecondCall(p, cfg, st2, d, e, c, ds2);
      KeysAreOrder(st2);
    } else {
      DroppedIsUnknown(p, cfg, st2, ExchangeCall, c.frame, ds2);
    }
  }

  /**
   The rest of the run: from the store behind an answered exchange the client gets the flag exactly when
   fewer than 1024 foreign ids were touched in between.
   */
  lemma HonestFinalize(p: Primitives, cfg: Config, o: seq<Bytes>, st: Store, d: ClientDraws, c: Keyed, b: Proved,
                       others: seq<Request>, ds: Draws)
    requires Lawful(p) && ValidStore(st) && ClientSized(d) && Sized(ds) && AllSized(others)
        && Foreign(others, d.sessionId)
    requires Bounded(o) && st.order == Touched(o, d.sessionId)
    requires d.sessionId in st.sessions && AgreeOnProof(p, st.sessions[d.sessionId], d, c, b)
    ensures var r := Serve(p, cfg, After(p, cfg, st, others), Request(FinalizeCall, Serialize(b.frame), ds));
            && (r.reply.Some? <==> |ToSet(Touches(p, cfg, st, others))| < 1024)
            && (r.reply.Some? ==> OnSealedFlag(p, c, b, r.reply.value) == Some(FLAG))
  {
    hide Lawful, ValidStore, Serialize, Serve, OnSealedFlag, Touched, Touches, After, AgreeOnProof, Foreign, ToSet,
         WellFormed, Bounded,
         Finalize, ClientSized, Sized;
    SurvivesExactly(p, cfg, o, st, others, d.sessionId);
    var st2 := After(p, cfg, st, others);
    FinalizeStage(p, ds, st.sessions[d.sessionId], d, c, b);
    if d.sessionId in st2.sessions {
      ThirdCall(p, cfg, st2, d, c, b, ds);
    } else {
      DroppedIsUnknown(p, cfg, st2, FinalizeCall, b.frame, ds);
    }
  }

  /** The honest run as a whole: with fewer than 1024 foreign ids touched in each gap the client returns the flag. */
  lemma HonestClientGetsFlag(p: Primitives, cfg: Config, st: Store, d: ClientDraws, e: Entry, ds1: Draws,
                             others1: seq<Request>,
                             ds2: Draws, others2: seq<Request>, ds3: Draws)
    requires Lawful(p) && ValidStore(st) && ClientSized(d) && Honest(p, cfg, e) && Sized(ds1) && Sized(ds2)
        && Sized(ds3)
    requires AllSized(others1) && Foreign(others1, d.sessionId) && AllSized(others2) && Foreign(others2, d.sessionId)
    ensures var r1 := Serve(p, cfg, st, Request(HelloCall, Serialize(HelloFrame(p, d, e.username)), ds1));
            && r1.reply.Some?
            && var c := OnChallenge(p, p.signPublic(cfg.signSeed), d, e, r1.reply.value);
            && c.Some?
            && (|ToSet(Touches(p, cfg, r1.store, others1))| < 1024 ==>
                  var r2 := Serve(p, cfg, After(p, cfg, r1.store, others1),
                                  Request(ExchangeCall, Serialize(c.value.frame), ds2));
                  && r2.reply.Some?
                  && var b := OnServerProof(p, d, c.value, r2.reply.value);
                  && b.Some?
                  && (|ToSet(Touches(p, cfg, r2.store, others2))| < 1024 ==>
                        var r3 := Serve(p, cfg, After(p, cfg, r2.store, others2),
                                        Request(FinalizeCall, Serialize(b.value.frame), ds3));
                        r3.reply.Some? && OnSealedFlag(p, c.value, b.value, r3.reply.value) == Some(FLAG)))
  {
    hide Lawful, ValidStore, Serialize, Serve, OnChallenge, OnServerProof, OnSealedFlag, Touched, Touches, After,
         AgreeOnProof,
         Foreign, HelloFrame, ToSet, Bounded, ClientSized, Sized, Honest;
    HonestExchange(p, cfg, st, d, e, ds1, others1, ds2);
    var r1 := Serve(p, cfg, st, Request(HelloCall, Serialize(HelloFrame(p, d, e.username)), ds1));
    if |ToSet(Touches(p, cfg, r1.store, others1))| < 1024 {
      var c := OnChallenge(p, p.signPublic(cfg.signSeed), d, e, r1.reply.value).value;
      var st2 := After(p, cfg, r1.store, others1);
      var r2 := Serve(p, cfg, st2, Request(ExchangeCall, Serialize(c.frame), ds2));
      var b := OnServerProof(p, d, c, r2.reply.value).value;
      HonestFinalize(p, cfg, st2.order, r2.store, d, c, b, others2, ds3);
    }
  }
}
