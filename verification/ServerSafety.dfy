/** Whole runs of the server, from the empty store, on arbitrary requests. */
module ServerSafety {
  import opened ByteStrings
  import opened Crypto
  import opened FrameFormat
  import opened Transcripts
  import opened Channel
  import opened Recency
  import opened ServerModel
  import opened ServerRuns

  ghost predicate AllSized(rs: seq<Request>) { forall i :: 0 <= i < |rs| ==> Sized(rs[i].draws) }

  // ---- one request ------------------------------------------------------------------------------------------

  /** What a request that touches a session does to the store. */
  lemma ServeTouches(p: Primitives, cfg: Config, st: Store, r: Request)
    requires Lawful(p) && ValidStore(st) && Sized(r.draws) && TouchOf(st, r).Some?
    ensures var id, f := TouchOf(st, r).value, Parse(r.raw).value;
            && Parse(r.raw).Some? && WellFormed(f) && Serialize(f) == r.raw && f.sessionId == id
            && SessionFor(st, r.endpoint, id).Some? && SessionFor(st, r.endpoint, id).value.sessionId == id
            && var a := AnswerOf(p, cfg, r.endpoint, r.draws, SessionFor(st, r.endpoint, id).value, f);
            && a.session.sessionId == id
            && Serve(p, cfg, st, r).store == Stored(st, a.session)
            && Serve(p, cfg, st, r).reply == match a.frame case None => None case Some(g) => Some(Serialize(g))
  {
    hide Lawful, Parse, Serialize, Exchange, Finalize, Hello, Stored, WellFormed;
    SerializeParse(r.raw);
    var id, f := TouchOf(st, r).value, Parse(r.raw).value;
    AnswerKeepsId(p, cfg, r.endpoint, r.draws, SessionFor(st, r.endpoint, id).value, f);
  }

  lemma AnswerKeepsId(p: Primitives, cfg: Config, e: Endpoint, d: Draws, s: Session, f: Frame)
    requires Lawful(p)
    ensures AnswerOf(p, cfg, e, d, s, f).session.sessionId == s.sessionId
  {
    hide Lawful, Parse, Serialize, Proves, AeadOpened, AeadSealed, PlainSealed, Absorbed, ServerProof1, Proof2,
         SealedBlob, ParseProof1, ParseHello, Transcripts.Start, ChallengeSignature;
  }

  /** Storing touches the id and changes no other session that stays. */
  lemma StoredIs(st: Store, s: Session)
    requires ValidStore(st)
    ensures var st' := Stored(st, s);
            && ValidStore(st') && st'.order == Touched(st.order, s.sessionId)
            && s.sessionId in st'.sessions && st'.sessions[s.sessionId] == s
            && forall id :: id in st'.sessions && id != s.sessionId ==>
                 id in st.sessions && st'.sessions[id] == st.sessions[id]
  {
    TouchedBounded(st.order, s.sessionId);
    hide Touched, Bounded;
    assert forall id :: id in ToSet(st.order) <==> id in st.order;
  }

  lemma ServeKeepsValid(p: Primitives, cfg: Config, st: Store, r: Request)
    requires Lawful(p) && ValidStore(st) && Sized(r.draws)
    ensures ValidStore(Serve(p, cfg, st, r).store)
    ensures Serve(p, cfg, st, r).store.order ==
            match TouchOf(st, r) case None => st.order case Some(id) => Touched(st.order, id)
  {
    hide Lawful, ValidStore, Stored, AnswerOf, TouchOf, Touched;
    if TouchOf(st, r).Some? {
      ServeTouches(p, cfg, st, r);
      var id := TouchOf(st, r).value;
      StoredIs(st, AnswerOf(p, cfg, r.endpoint, r.draws, SessionFor(st, r.endpoint, id).value,
                            Parse(r.raw).value).session);
    }
  }

  // ---- the store over a run ---------------------------------------------------------------------------------

  /** The ids the requests touched, in order. */
  function Touches(p: Primitives, cfg: Config, st: Store, rs: seq<Request>): seq<Bytes>
    requires Lawful(p)
  {
    if rs == [] then []
    else
      var before := rs[..|rs| - 1];
      Touches(p, cfg, st, before)
        + match TouchOf(After(p, cfg, st, before), rs[|rs| - 1]) case None => [] case Some(id) => [id]
  }

  /** Over every run the store is valid and ordered by the touches, so an LRU list (StoreIsLru, DroppedExactly). */
  lemma {:induction false} OrderOfRun(p: Primitives, cfg: Config, st: Store, rs: seq<Request>)
    requires Lawful(p) && ValidStore(st) && AllSized(rs)
    ensures ValidStore(After(p, cfg, st, rs))
    ensures After(p, cfg, st, rs).order == TouchedAll(st.order, Touches(p, cfg, st, rs))
  {
    hide Lawful, ValidStore, TouchOf, Touched, Serve;
    if rs != [] {
      var before := rs[..|rs| - 1];
      OrderOfRun(p, cfg, st, before);
      ServeKeepsValid(p, cfg, After(p, cfg, st, before), rs[|rs| - 1]);
      var t := Touches(p, cfg, st, before);
      var touch := TouchOf(After(p, cfg, st, before), rs[|rs| - 1]);
      if touch.Some? {
        assert (t + [touch.value])[..|t|] == t;
      } else {
        assert t + [] == t;
      }
    }
  }

  lemma EmptyIsValid()
    ensures ValidStore(EMPTY)
  {}

  // ---- logs over a run --------------------------------------------------------------------------------------

  /** The answered rounds of the session `id` since its last HELLO. */
  function LogAfter(p: Primitives, cfg: Config, rs: seq<Request>, id: Bytes): seq<Round>
    requires Lawful(p)
  {
    if rs == [] then []
    else
      var before, r := rs[..|rs| - 1], rs[|rs| - 1];
      var st := After(p, cfg, EMPTY, before);
      if TouchOf(st, r) != Some(id) then LogAfter(p, cfg, before, id)
      else
        var prior := if r.endpoint.HelloCall? then [] else LogAfter(p, cfg, before, id);
        match Serve(p, cfg, st, r).reply case None => prior case Some(out) => prior + [Round(r.raw, out)]
  }

  lemma TouchedSessionFits(p: Primitives, cfg: Config, st: Store, r: Request, log: seq<Round>)
    requires Lawful(p) && ValidStore(st) && Sized(r.draws) && TouchOf(st, r).Some?
    requires var id := TouchOf(st, r).value;
             id in st.sessions && !r.endpoint.HelloCall? ==> SessionFits(p, st.sessions[id], log)
    ensures var id, served := TouchOf(st, r).value, Serve(p, cfg, st, r);
            && id in served.store.sessions
            && var prior := if r.endpoint.HelloCall? then [] else log;
            && SessionFits(p, served.store.sessions[id],
                           match served.reply case None => prior case Some(out) => prior + [Round(r.raw, out)])
            && (r.endpoint.HelloCall? ==> !served.store.sessions[id].proof1Ok)
  {
    var id, f := TouchOf(st, r).value, Parse(r.raw).value;
    assert !r.endpoint.HelloCall? ==> id in st.sessions && SessionFor(st, r.endpoint, id) == Some(st.sessions[id]);
    hide Lawful, ValidStore, Stored, TouchOf, SessionFits, Serialize, Parse, WellFormed, Serve, Exchange, Finalize,
         Hello;
    ServeTouches(p, cfg, st, r);
    var s := SessionFor(st, r.endpoint, id).value;
    var a := AnswerOf(p, cfg, r.endpoint, r.draws, s, f);
    StoredIs(st, a.session);
    if r.endpoint.HelloCall? {
      HelloKeeps(p, cfg, r.draws, f);
    } else {
      LaterKeeps(p, cfg, r.endpoint, r.draws, s, log, f);
    }
  }

  lemma UntouchedSessionsStay(p: Primitives, cfg: Config, st: Store, r: Request, id: Bytes)
    requires Lawful(p) && ValidStore(st) && Sized(r.draws) && TouchOf(st, r) != Some(id)
    ensures var st' := Serve(p, cfg, st, r).store;
            id in st'.sessions ==> id in st.sessions && st'.sessions[id] == st.sessions[id]
  {
    hide Lawful, ValidStore, Stored, TouchOf, Parse, AnswerOf;
    if TouchOf(st, r).Some? {
      ServeTouches(p, cfg, st, r);
      StoredIs(st, AnswerOf(p, cfg, r.endpoint, r.draws, SessionFor(st, r.endpoint, TouchOf(st, r).value).value,
                            Parse(r.raw).value).session);
    }
  }

  /**
   Over every run of requests on arbitrary bytes, every stored session fits its log: its transcript is the
   rolling fold of the frames it accepted and emitted, its server counter is the number of rounds, the
   emitted frames carry the counters 1, 2, ..., and the accepted client counters strictly increase.
   */
  lemma {:induction false} SessionsFitTheirLogs(p: Primitives, cfg: Config, rs: seq<Request>, id: Bytes)
    requires Lawful(p) && AllSized(rs)
    ensures ValidStore(After(p, cfg, EMPTY, rs))
    ensures var st := After(p, cfg, EMPTY, rs);
            id in st.sessions ==> SessionFits(p, st.sessions[id], LogAfter(p, cfg, rs, id))
  {
    hide Lawful, ValidStore, TouchOf, SessionFits, Serve;
    if rs == [] {
      EmptyIsValid();
    } else {
      var before, r := rs[..|rs| - 1], rs[|rs| - 1];
      SessionsFitTheirLogs(p, cfg, before, id);
      var st := After(p, cfg, EMPTY, before);
      ServeKeepsValid(p, cfg, st, r);
      if TouchOf(st, r) == Some(id) {
        TouchedSessionFits(p, cfg, st, r, LogAfter(p, cfg, before, id));
      } else {
        UntouchedSessionsStay(p, cfg, st, r, id);
      }
    }
  }
}
