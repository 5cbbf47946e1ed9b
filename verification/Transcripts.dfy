/** The rolling transcript, and what equal transcripts say about the histories behind them. */
module Transcripts {
  import opened ByteStrings
  import opened Crypto
  import opened FrameFormat

  const TRANSCRIPT_SEED: Bytes := Ascii("RG6-TRANSCRIPT/v6")

  function Start(p: Primitives): (t: Bytes)
    requires Lawful(p)
    ensures |t| == 32
  { Sha256(p, TRANSCRIPT_SEED) }

  /** The transcript behind a history of whole frames. */
  function Rolled(p: Primitives, history: seq<Bytes>): (t: Bytes)
    requires Lawful(p)
    ensures |t| == 32
  {
    if history == [] then Start(p)
    else Sha256(p, Rolled(p, history[..|history| - 1]) + history[|history| - 1])
  }

  lemma RolledAppend(p: Primitives, history: seq<Bytes>, full: Bytes)
    requires Lawful(p)
    ensures Rolled(p, history + [full]) == Sha256(p, Rolled(p, history) + full)
  {
    assert (history + [full])[..|history|] == history;
  }

  /**
   Two different histories behind the same transcript contain a collision of SHA-256. Their lengths may
   differ: the seed has 17 bytes, and every later input at least 32.
   */
  lemma {:induction false} EqualTranscriptsCollide(p: Primitives, a: seq<Bytes>, b: seq<Bytes>) returns (x: Bytes,
      y: Bytes)
    requires Lawful(p) && Rolled(p, a) == Rolled(p, b) && a != b
    ensures x != y && p.sha256(x) == p.sha256(y)
  {
    hide Sha256, Ascii, Lawful;
    if a == [] {
      x, y := TRANSCRIPT_SEED, Rolled(p, b[..|b| - 1]) + b[|b| - 1];
    } else if b == [] {
      x, y := Rolled(p, a[..|a| - 1]) + a[|a| - 1], TRANSCRIPT_SEED;
    } else {
      var a', b' := a[..|a| - 1], b[..|b| - 1];
      var s, t := Rolled(p, a'), Rolled(p, b');
      x, y := s + a[|a| - 1], t + b[|b| - 1];
      if x == y {
        assert s == x[..32] && t == y[..32] && a[|a| - 1] == x[32..] && b[|b| - 1] == y[32..];
        assert a == a' + [a[|a| - 1]] && b == b' + [b[|b| - 1]];
        x, y := EqualTranscriptsCollide(p, a', b');
        return;
      }
    }
    HashOf(p, x);
    HashOf(p, y);
  }

  lemma HashOf(p: Primitives, d: Bytes)
    requires Lawful(p)
    ensures Sha256(p, d) == p.sha256(d)
  {}

  // ---- sealing and opening ----------------------------------------------------------------------------------

  /** The frame with its MAC over everything before it. */
  function Sealed(p: Primitives, state: Bytes, macKey: Bytes, f: Frame): (r: Frame)
    requires Lawful(p)
  { f.(mac := Hmac(p, macKey, state + PreMac(f))) }

  predicate MacMatches(p: Primitives, state: Bytes, macKey: Bytes, f: Frame)
    requires Lawful(p)
  { f.mac == Hmac(p, macKey, state + PreMac(f)) }

  function Absorbed(p: Primitives, state: Bytes, f: Frame): (r: Bytes)
    requires Lawful(p)
    ensures |r| == 32
  { Sha256(p, state + Serialize(f)) }

  /** The state behind a frame that opens; None when its MAC does not match. */
  function Opened(p: Primitives, state: Bytes, macKey: Bytes, f: Frame): (r: Option<Bytes>)
    requires Lawful(p)
    ensures r.Some? ==> |r.value| == 32
  { if MacMatches(p, state, macKey, f) then Some(Absorbed(p, state, f)) else None }

  /** What one side seals the other opens, and both states move on together. */
  lemma OpenSealed(p: Primitives, state: Bytes, macKey: Bytes, f: Frame)
    requires Lawful(p)
    ensures var s := Sealed(p, state, macKey, f); Opened(p, state, macKey, s) == Some(Absorbed(p, state, s))
  {
    hide Hmac;
  }

  /**
   The bytes of a frame open exactly when the last 32 of them are the primitive's MAC over the state and all
   the others; the next state is the hash of the old one and all the bytes.
   */
  lemma OpensExactly(p: Primitives, state: Bytes, macKey: Bytes, raw: Bytes)
    requires Lawful(p) && Parse(raw).Some?
    ensures var n := |raw|;
            && n >= 106
            && Opened(p, state, macKey, Parse(raw).value) ==
               if raw[n - 32..] == p.hmac(macKey, state + raw[..n - 32]) then Some(p.sha256(state + raw)) else None
  {
    FieldsOf(raw);
    hide Parse, PreMac, Serialize, Lawful;
  }

  /** The bytes a MAC covers name the state and, with the MAC, the frame. */
  lemma CoveredBytesTell(state: Bytes, state': Bytes, f: Frame, g: Frame)
    requires WellFormed(f) && WellFormed(g) && |state| == |state'| && f.mac == g.mac
    requires state + PreMac(f) == state' + PreMac(g)
    ensures state == state' && f == g
  {
    ParseSerialize(f);
    ParseSerialize(g);
    hide PreMac, WellFormed, Parse;
    var x, y := state + PreMac(f), state' + PreMac(g);
    assert state == x[..|state|] && state' == y[..|state|];
    assert PreMac(f) == x[|state|..] && PreMac(g) == y[|state|..];
  }

  /**
   A MAC binds a frame to the whole history in front of it: when two frames with one MAC open under one key,
   either history and frame are the same, or two concrete inputs collide under HMAC or under SHA-256.
   */
  lemma MacBindsHistory(p: Primitives, macKey: Bytes, a: seq<Bytes>, f: Frame, b: seq<Bytes>, g: Frame)
    returns (x: Bytes, y: Bytes)
    requires Lawful(p) && WellFormed(f) && WellFormed(g) && f.mac == g.mac && (a != b || f != g)
    requires Opened(p, Rolled(p, a), macKey, f).Some? && Opened(p, Rolled(p, b), macKey, g).Some?
    ensures x != y && (p.hmac(macKey, x) == p.hmac(macKey, y) || p.sha256(x) == p.sha256(y))
  {
    hide Lawful, PreMac, Absorbed, WellFormed, Rolled;
    var s, t := Rolled(p, a), Rolled(p, b);
    x, y := s + PreMac(f), t + PreMac(g);
    if x == y {
      CoveredBytesTell(s, t, f, g);
      x, y := EqualTranscriptsCollide(p, a, b);
    }
  }

  class Transcript {
    var state: Bytes

    constructor (p: Primitives)
      requires Lawful(p)
      ensures state == Start(p)
    {
      state := Sha256(p, TRANSCRIPT_SEED);
    }

    method MacFor(p: Primitives, macKey: Bytes, preMac: Bytes) returns (mac: Bytes)
      requires Lawful(p)
      ensures mac == Hmac(p, macKey, state + preMac)
    {
      mac := Hmac(p, macKey, state + preMac);
    }

    method Absorb(p: Primitives, full: Bytes)
      requires Lawful(p)
      modifies this
      ensures state == Sha256(p, old(state) + full)
    {
      state := Sha256(p, state + full);
    }

    /** The MAC field is filled last: it does not occur in what it covers. */
    method SealFrame(p: Primitives, macKey: Bytes, messageType: byte, sessionId: Bytes, counter: nat, nonce: Bytes,
                     payload: Bytes, tag: Bytes) returns (f: Frame)
      requires Lawful(p)
      modifies this
      ensures f == Sealed(p, old(state), macKey, Frame(messageType, sessionId, counter, nonce, payload, tag, Zeros(32)))
      ensures state == Absorbed(p, old(state), f)
    {
      hide Hmac, Sha256, Lawful;
      f := Frame(messageType, sessionId, counter, nonce, payload, tag, Zeros(32));
      var mac := MacFor(p, macKey, PreMac(f));
      f := f.(mac := mac);
      Absorb(p, Serialize(f));
    }

    method OpenFrame(p: Primitives, macKey: Bytes, f: Frame) returns (ok: bool)
      requires Lawful(p)
      modifies this
      ensures ok == Opened(p, old(state), macKey, f).Some?
      ensures state == if ok then Opened(p, old(state), macKey, f).value else old(state)
      ensures ok <==> f.mac == p.hmac(macKey, old(state) + PreMac(f))
      ensures state == if ok then p.sha256(old(state) + Serialize(f)) else old(state)
    {
      hide Lawful;
      var expected := MacFor(p, macKey, PreMac(f));
      ok := expected == f.mac;
      if ok { Absorb(p, Serialize(f)); }
    }
  }
}
