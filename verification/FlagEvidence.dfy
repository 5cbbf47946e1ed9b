/** A flag leaves the server only after a handshake, a license and two proofs on the same session. */
module FlagEvidence {
  import opened ByteStrings
  import opened Crypto
  import opened FrameFormat
  import opened ServerModel
  import opened ServerRuns
  import opened ServerSafety
  import opened Evidence

  /** Request k of the run touches `id`. */
  predicate TouchesAt(p: Primitives, cfg: Config, rs: seq<Request>, k: nat, id: Bytes)
    requires Lawful(p) && k < |rs|
  { TouchOf(After(p, cfg, EMPTY, rs[..k]), rs[k]) == Some(id) }

  function ReplyAt(p: Primitives, cfg: Config, rs: seq<Request>, k: nat): Option<Bytes>
    requires Lawful(p) && k < |rs|
  { Serve(p, cfg, After(p, cfg, EMPTY, rs[..k]), rs[k]).reply }

  predicate AnsweredAt(p: Primitives, cfg: Config, rs: seq<Request>, k: nat)
    requires Lawful(p) && k < |rs|
  { ReplyAt(p, cfg, rs, k).Some? }

  // ---- the latest HELLO and the latest exchange -------------------------------------------------------------

  /** The latest HELLO on `id` among the first n requests, answered or not. */
  function LastHello(p: Primitives, cfg: Config, rs: seq<Request>, n: nat, id: Bytes): (h: Option<nat>)
    requires Lawful(p) && n <= |rs|
    ensures h.Some? ==> h.value < n
  {
    if n == 0 then None
    else if TouchesAt(p, cfg, rs, n - 1, id) && rs[n - 1].endpoint.HelloCall? then Some(n - 1)
    else LastHello(p, cfg, rs, n - 1, id)
  }

  lemma {:induction false} LastHelloIsLast(p: Primitives, cfg: Config, rs: seq<Request>, n: nat, id: Bytes)
    requires Lawful(p) && n <= |rs| && LastHello(p, cfg, rs, n, id).Some?
    ensures var h := LastHello(p, cfg, rs, n, id).value;
            && TouchesAt(p, cfg, rs, h, id) && rs[h].endpoint.HelloCall?
            && forall k :: h < k < n && TouchesAt(p, cfg, rs, k, id) ==> !rs[k].endpoint.HelloCall?
  {
    hide Lawful, TouchesAt;
    var h := LastHello(p, cfg, rs, n, id).value;
    if h != n - 1 { LastHelloIsLast(p, cfg, rs, n - 1, id); }
  }

  /** The latest answered exchange on `id` since its last HELLO, among the first n requests. */
  function LastExchange(p: Primitives, cfg: Config, rs: seq<Request>, n: nat, id: Bytes): (m: Option<nat>)
    requires Lawful(p) && n <= |rs|
    ensures m.Some? ==> m.value < n
  {
    if n == 0 then None
    else if TouchesAt(p, cfg, rs, n - 1, id) && rs[n - 1].endpoint.HelloCall? then None
    else if TouchesAt(p, cfg, rs, n - 1, id) && rs[n - 1].endpoint.ExchangeCall?
        && AnsweredAt(p, cfg, rs, n - 1) then Some(n - 1)
    else LastExchange(p, cfg, rs, n - 1, id)
  }

  lemma {:induction false} LastExchangeIsLast(p: Primitives, cfg: Config, rs: seq<Request>, n: nat, id: Bytes)
    requires Lawful(p) && n <= |rs| && LastExchange(p, cfg, rs, n, id).Some?
    ensures var m := LastExchange(p, cfg, rs, n, id).value;
            && TouchesAt(p, cfg, rs, m, id) && rs[m].endpoint.ExchangeCall? && AnsweredAt(p, cfg, rs, m)
            && forall k :: m < k < n && TouchesAt(p, cfg, rs, k, id) ==>
                 !rs[k].endpoint.HelloCall? && !(rs[k].endpoint.ExchangeCall? && AnsweredAt(p, cfg, rs, k))
  {
    hide Lawful, TouchesAt, AnsweredAt;
    var m := LastExchange(p, cfg, rs, n, id).value;
    if m != n - 1 { LastExchangeIsLast(p, cfg, rs, n - 1, id); }
  }

  // ---- what a stored session owes to them -------------------------------------------------------------------

  /** The session as it was when request m came. */
  function SessionAt(p: Primitives, cfg: Config, rs: seq<Request>, m: nat, id: Bytes): Session
    requires Lawful(p) && m < |rs|
  {
    var st := After(p, cfg, EMPTY, rs[..m]);
    if id in st.sessions then st.sessions[id] else Fresh(id)
  }

  /** What session `s` owes to the HELLO at h. */
  ghost predicate GreetedAt(p: Primitives, cfg: Config, rs: seq<Request>, h: nat, s: Session)
    requires Lawful(p) && h < |rs|
  {
    && ReplyAt(p, cfg, rs, h).Some?
    && SettledBy(p, rs[h].draws, rs[h].raw, ReplyAt(p, cfg, rs, h).value, s)
    && ChallengesWith(p, cfg, rs[h].draws, rs[h].raw, ReplyAt(p, cfg, rs, h).value)
  }

  /** What session `s` owes to the exchange at m. */
  ghost predicate OwedTo(p: Primitives, cfg: Config, rs: seq<Request>, m: nat, s: Session)
    requires Lawful(p) && m < |rs|
  {
    var s0 := SessionAt(p, cfg, rs, m, s.sessionId);
    && ShowsLicense(p, cfg, s0, rs[m].raw) && SameHandshake(s0, s)
    && s.challenge2 == rs[m].draws.random && s.vmDigest == DigestIn(p, s0, rs[m].raw)
  }

  ghost predicate Stands(p: Primitives, cfg: Config, rs: seq<Request>, n: nat, s: Session)
    requires Lawful(p) && n <= |rs|
  {
    var h, m := LastHello(p, cfg, rs, n, s.sessionId), LastExchange(p, cfg, rs, n, s.sessionId);
    && (s.keys.Some? ==> h.Some? && GreetedAt(p, cfg, rs, h.value, s))
    && (s.proof1Ok <==> m.Some?) && (m.Some? ==> OwedTo(p, cfg, rs, m.value, s))
  }

  /** What a request that touches `id` leaves there. */
  ghost predicate Leaves(p: Primitives, cfg: Config, st: Store, r: Request, id: Bytes, s': Session)
    requires Lawful(p)
  {
    var reply := Serve(p, cfg, st, r).reply;
    && s'.sessionId == id
    && (r.endpoint.HelloCall? ==>
          && !s'.proof1Ok
          && (s'.keys.Some? ==>
                && reply.Some? && SettledBy(p, r.draws, r.raw, reply.value, s')
                && ChallengesWith(p, cfg, r.draws, r.raw, reply.value)))
    && (!r.endpoint.HelloCall? ==>
          && id in st.sessions && st.sessions[id].sessionId == id
          && var s := st.sessions[id];
          && SameHandshake(s, s')
          && if r.endpoint.ExchangeCall? && reply.Some? then
               && ShowsLicense(p, cfg, s, r.raw) && s'.proof1Ok && s'.challenge2 == r.draws.random
               && s'.vmDigest == DigestIn(p, s, r.raw)
             else s'.proof1Ok == s.proof1Ok && s'.challenge2 == s.challenge2 && s'.vmDigest == s.vmDigest)
  }

  lemma ServeLeaves(p: Primitives, cfg: Config, st: Store, r: Request)
    requires Lawful(p) && ValidStore(st) && Sized(r.draws) && TouchOf(st, r).Some?
    ensures var id, st' := TouchOf(st, r).value, Serve(p, cfg, st, r).store;
            id in st'.sessions && Leaves(p, cfg, st, r, id, st'.sessions[id])
  {
    var id, f := TouchOf(st, r).value, Parse(r.raw).value;
    assert r.endpoint.HelloCall? ==> SessionFor(st, r.endpoint, id) == Some(Fresh(id));
    assert !r.endpoint.HelloCall? ==> id in st.sessions && SessionFor(st, r.endpoint, id) == Some(st.sessions[id]);
    hide Lawful, ValidStore, Stored, TouchOf, Serialize, Parse, Serve, Exchange, Finalize, Hello, ShowsLicense,
         ShowsProof2, SettledBy, ChallengesWith, DigestIn, SessionFits, WellFormed, SameHandshake, Number, SessionFor;
    ServeTouches(p, cfg, st, r);
    var s := SessionFor(st, r.endpoint, id).value;
    var a := AnswerOf(p, cfg, r.endpoint, r.draws, s, f);
    StoredIs(st, a.session);
    TypeAndId(r.raw);
    match r.endpoint {
      case HelloCall =>
        HelloKeeps(p, cfg, r.draws, f);
        HelloShows(p, cfg, r.draws, r.raw);
      case ExchangeCall => ExchangeShows(p, cfg, r.draws, s, r.raw);
      case FinalizeCall => FinalizeShows(p, r.draws, s, r.raw);
    }
  }

  lemma SettledCarries(p: Primitives, d: Draws, raw: Bytes, reply: Bytes, s: Session, s': Session)
    requires SameHandshake(s, s') && SettledBy(p, d, raw, reply, s)
    ensures SettledBy(p, d, raw, reply, s')
  {
    hide ShowsName, Body, NameIn, Seed, Ascii;
  }

  lemma GreetedCarries(p: Primitives, cfg: Config, rs: seq<Request>, h: nat, s: Session, s': Session)
    requires Lawful(p) && h < |rs| && SameHandshake(s, s') && GreetedAt(p, cfg, rs, h, s)
    ensures GreetedAt(p, cfg, rs, h, s')
  {
    SettledCarries(p, rs[h].draws, rs[h].raw, ReplyAt(p, cfg, rs, h).value, s, s');
    hide Lawful, ReplyAt, SettledBy, ChallengesWith;
  }

  /** The request at n touches `id` and leaves the session s' there. */
  lemma StandsAfterTouch(p: Primitives, cfg: Config, rs: seq<Request>, n: nat, id: Bytes, s': Session)
    requires Lawful(p) && n < |rs| && TouchesAt(p, cfg, rs, n, id)
    requires var st := After(p, cfg, EMPTY, rs[..n]);
             && (id in st.sessions ==> Stands(p, cfg, rs, n, st.sessions[id]))
             && Leaves(p, cfg, st, rs[n], id, s')
    ensures Stands(p, cfg, rs, n + 1, s')
  {
    hide Lawful, TouchOf, Serve, ShowsLicense, DigestIn, SettledBy, ChallengesWith, After;
    var h := LastHello(p, cfg, rs, n, id);
    if !rs[n].endpoint.HelloCall? && s'.keys.Some? {
      GreetedCarries(p, cfg, rs, h.value, SessionAt(p, cfg, rs, n, id), s');
    }
  }

  lemma StandsUntouched(p: Primitives, cfg: Config, rs: seq<Request>, n: nat, s: Session)
    requires Lawful(p) && n < |rs| && !TouchesAt(p, cfg, rs, n, s.sessionId) && Stands(p, cfg, rs, n, s)
    ensures Stands(p, cfg, rs, n + 1, s)
  {
    hide Lawful, TouchesAt, OwedTo, GreetedAt;
  }

  lemma {:induction false} SessionsStand(p: Primitives, cfg: Config, rs: seq<Request>, n: nat, id: Bytes)
    requires Lawful(p) && n <= |rs| && AllSized(rs)
    ensures var st := After(p, cfg, EMPTY, rs[..n]);
            ValidStore(st) && (id in st.sessions ==> Stands(p, cfg, rs, n, st.sessions[id]))
  {
    hide Lawful, ValidStore, TouchOf, Serve, OwedTo, Stands, Leaves;
    if n == 0 {
      EmptyIsValid();
    } else {
      SessionsStand(p, cfg, rs, n - 1, id);
      var st, r := After(p, cfg, EMPTY, rs[..n - 1]), rs[n - 1];
      assert rs[..n][..n - 1] == rs[..n - 1];
      ServeKeepsValid(p, cfg, st, r);
      if TouchesAt(p, cfg, rs, n - 1, id) {
        ServeLeaves(p, cfg, st, r);
        StandsAfterTouch(p, cfg, rs, n - 1, id, Serve(p, cfg, st, r).store.sessions[id]);
      } else {
        UntouchedSessionsStay(p, cfg, st, r, id);
        if id in st.sessions {
          StoredIdIs(st, id);
          StandsUntouched(p, cfg, rs, n - 1, st.sessions[id]);
        }
      }
    }
  }

  /**
   Over every run: an answered finalize at n comes after an answered exchange at m and an answered HELLO at h < m
   on the same session, with no other HELLO since h and no other answered exchange since m. The HELLO and its reply
   settled username and keys; the exchange carried a license for that username, the outputs of the server's engine
   and the first proof; the finalize carried the second proof, over the challenge drawn at m.
   */
  lemma FlagNeedsProof(p: Primitives, cfg: Config, rs: seq<Request>, n: nat) returns (h: nat, m: nat)
    requires Lawful(p) && AllSized(rs) && n < |rs| && rs[n].endpoint.FinalizeCall? && AnsweredAt(p, cfg, rs, n)
    ensures h < m < n && |rs[n].raw| >= 106
    ensures var id := rs[n].raw[6..22];
            && TouchesAt(p, cfg, rs, h, id) && rs[h].endpoint.HelloCall?
            && TouchesAt(p, cfg, rs, m, id) && rs[m].endpoint.ExchangeCall? && AnsweredAt(p, cfg, rs, m)
            && (forall k :: h < k < n && TouchesAt(p, cfg, rs, k, id) ==> !rs[k].endpoint.HelloCall?)
            && (forall k :: m < k < n && TouchesAt(p, cfg, rs, k, id) ==>
                  !(rs[k].endpoint.ExchangeCall? && AnsweredAt(p, cfg, rs, k)))
    ensures var id := rs[n].raw[6..22];
            var s0, s := SessionAt(p, cfg, rs, m, id), SessionAt(p, cfg, rs, n, id);
            && SameHandshake(s0, s) && GreetedAt(p, cfg, rs, h, s) && ShowsLicense(p, cfg, s0, rs[m].raw)
            && s.keys.Some? && Authentic(p, s.transcript, s.keys.value.mac, rs[n].raw)
            && Plaintext(p, s.keys.value.c2s, rs[n].raw) ==
               Some(p.hmac(s.keys.value.proof2, Ascii("RG6-PROOF2/v6") + rs[m].draws.random + s.serverRandom
                                                + s.serverPub + DigestIn(p, s0, rs[m].raw) + s.salt))
  {
    assert Serve(p, cfg, After(p, cfg, EMPTY, rs[..n]), rs[n]).reply.Some?;
    hide Lawful, ValidStore, TouchOf, Serve, ShowsLicense, After, DigestIn, LastExchange, LastHello, Authentic,
         Plaintext, SettledBy, ChallengesWith, Ascii, ReplyAt, SameHandshake, TouchesAt, AnsweredAt;
    var st, r := After(p, cfg, EMPTY, rs[..n]), rs[n];
    SessionsStand(p, cfg, rs, n, []);
    var id := AnsweredFinalize(p, cfg, st, r);
    SessionsStand(p, cfg, rs, n, id);
    h, m := LastHello(p, cfg, rs, n, id).value, LastExchange(p, cfg, rs, n, id).value;
    HelloThenExchange(p, cfg, rs, n, id);
  }

  lemma HelloThenExchange(p: Primitives, cfg: Config, rs: seq<Request>, n: nat, id: Bytes)
    requires Lawful(p) && n <= |rs| && LastHello(p, cfg, rs, n, id).Some? && LastExchange(p, cfg, rs, n, id).Some?
    ensures var h, m := LastHello(p, cfg, rs, n, id).value, LastExchange(p, cfg, rs, n, id).value;
            && h < m
            && TouchesAt(p, cfg, rs, h, id) && rs[h].endpoint.HelloCall?
            && TouchesAt(p, cfg, rs, m, id) && rs[m].endpoint.ExchangeCall? && AnsweredAt(p, cfg, rs, m)
            && (forall k :: h < k < n && TouchesAt(p, cfg, rs, k, id) ==> !rs[k].endpoint.HelloCall?)
            && (forall k :: m < k < n && TouchesAt(p, cfg, rs, k, id) ==>
                  !(rs[k].endpoint.ExchangeCall? && AnsweredAt(p, cfg, rs, k)))
  {
    hide Lawful, LastHello, LastExchange, TouchesAt, AnsweredAt;
    LastHelloIsLast(p, cfg, rs, n, id);
    LastExchangeIsLast(p, cfg, rs, n, id);
  }

  /** An answered finalize acted on a stored session with a proof, and carried its proof 2. */
  lemma AnsweredFinalize(p: Primitives, cfg: Config, st: Store, r: Request) returns (id: Bytes)
    requires Lawful(p) && ValidStore(st) && Sized(r.draws) && r.endpoint.FinalizeCall?
        && Serve(p, cfg, st, r).reply.Some?
    ensures |r.raw| >= 106 && r.raw[6..22] == id && id in st.sessions && st.sessions[id].sessionId == id
    ensures ShowsProof2(p, st.sessions[id], r.raw)
  {
    hide Lawful, ValidStore, Serve, ShowsProof2, Number;
    AnsweredExactly(p, cfg, st, r);
    id := r.raw[6..22];
    StoredIdIs(st, id);
  }

  lemma StoredIdIs(st: Store, id: Bytes)
    requires ValidStore(st) && id in st.sessions
    ensures st.sessions[id].sessionId == id
  {}
}
