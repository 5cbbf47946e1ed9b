/**
 The binary frame. `Parse` says at which offsets the fields sit and is what both cursor-moving
 parsers are proved against; it undoes `Serialize` and accepts nothing else.
 */
module FrameFormat {
  import opened ByteStrings

  datatype Frame = Frame(
    messageType: byte, sessionId: Bytes, counter: nat, nonce: Bytes, payload: Bytes, tag: Bytes, mac: Bytes)

  const MAGIC: Bytes := [0x52, 0x47, 0x36, 0x00]
  const PROTO_VERSION: byte := 6
  const HEADER_SIZE: nat := 58
  const MIN_SIZE: nat := 106
  const MAX_PAYLOAD: nat := 0x10_0000

  const MT_HELLO: byte := 1
  const MT_SERVER_CHALLENGE: byte := 2
  const MT_CLIENT_PROOF_1: byte := 3
  const MT_SERVER_PROOF_1: byte := 4
  const MT_CLIENT_PROOF_2: byte := 5
  const MT_FINALIZE: byte := 6
  const MT_SEALED_FLAG: byte := 7

  /** The field sizes, and a payload short enough for the parsers. */
  predicate WellFormed(f: Frame) {
    && |f.sessionId| == 16 && f.counter < Pow256(8) && |f.nonce| == 24
    && |f.payload| <= MAX_PAYLOAD && |f.tag| == 16 && |f.mac| == 32
  }

  function Header(messageType: byte, sessionId: Bytes, counter: nat, nonce: Bytes, payloadLen: nat): Bytes {
    MAGIC + [PROTO_VERSION, messageType] + sessionId + BigEndian(counter, 8) + nonce + BigEndian(payloadLen, 4)
  }

  function PreMac(f: Frame): Bytes {
    Header(f.messageType, f.sessionId, f.counter, f.nonce, |f.payload|) + f.payload + f.tag
  }

  function Serialize(f: Frame): Bytes { PreMac(f) + f.mac }

  function Parse(buf: Bytes): Option<Frame> {
    if |buf| < MIN_SIZE || buf[..4] != MAGIC || buf[4] != PROTO_VERSION then None
    else
      var n := Number(buf[54..58]);
      if n > MAX_PAYLOAD || |buf| != MIN_SIZE + n then None
      else Some(Frame(buf[5], buf[6..22], Number(buf[22..30]), buf[30..54], buf[58..58 + n], buf[58 + n..74 + n],
                      buf[74 + n..]))
  }

  // ---- the fields of a serialized frame ---------------------------------------------------------------------

  lemma HeaderFields(f: Frame)
    requires WellFormed(f)
    ensures var h := Header(f.messageType, f.sessionId, f.counter, f.nonce, |f.payload|);
            && |h| == HEADER_SIZE && h[..4] == MAGIC && h[4] == PROTO_VERSION && h[5] == f.messageType
            && h[6..22] == f.sessionId && h[22..30] == BigEndian(f.counter, 8) && h[30..54] == f.nonce
            && h[54..58] == BigEndian(|f.payload|, 4)
  {
    hide BigEndian, Pow256;
  }

  lemma SerializedFields(f: Frame)
    requires WellFormed(f)
    ensures var b, n := Serialize(f), |f.payload|;
            && |b| == MIN_SIZE + n
            && b[..58] == Header(f.messageType, f.sessionId, f.counter, f.nonce, n)
            && b[58..58 + n] == f.payload && b[58 + n..74 + n] == f.tag && b[74 + n..] == f.mac
  {
    HeaderFields(f);
    hide Header;
  }

  /** Parsing undoes serializing. */
  lemma ParseSerialize(f: Frame)
    requires WellFormed(f)
    ensures Parse(Serialize(f)) == Some(f)
  {
    HeaderFields(f);
    SerializedFields(f);
    Pow256Values();
    NumberOfBigEndian(f.counter, 8);
    NumberOfBigEndian(|f.payload|, 4);
    hide Header, Serialize, Number, BigEndian, Pow256;
    var b := Serialize(f);
    var h := b[..58];
    assert b[..4] == h[..4] && b[4] == h[4] && b[5] == h[5] && b[6..22] == h[6..22] && b[22..30] == h[22..30];
    assert b[30..54] == h[30..54] && b[54..58] == h[54..58];
  }

  /** Serializing undoes parsing: an accepted buffer is the serialization of the frame it parses to. */
  lemma SerializeParse(buf: Bytes)
    requires Parse(buf).Some?
    ensures WellFormed(Parse(buf).value) && Serialize(Parse(buf).value) == buf
  {
    var f := Parse(buf).value;
    NumberBound(buf[22..30]);
    BigEndianOfNumber(buf[22..30]);
    BigEndianOfNumber(buf[54..58]);
    hide Number, BigEndian, Pow256;
    var n := |f.payload|;
    assert buf[4..6] == [PROTO_VERSION, f.messageType];
    assert buf == buf[..4] + buf[4..6] + buf[6..22] + buf[22..30] + buf[30..54] + buf[54..58]
                  + buf[58..58 + n] + buf[58 + n..74 + n] + buf[74 + n..];
  }

  /** The parser accepts exactly the serializations of well-formed frames. */
  lemma ParseAcceptsExactly(buf: Bytes)
    ensures Parse(buf).Some? <==> exists f :: WellFormed(f) && Serialize(f) == buf
  {
    hide Parse, WellFormed, Serialize;
    if Parse(buf).Some? {
      SerializeParse(buf);
    }
    forall f | WellFormed(f) && Serialize(f) == buf ensures Parse(buf).Some? {
      ParseSerialize(f);
    }
  }

  /** The demands on a buffer, in numbers: magic and version, and a length field of at most 2^20 that fits. */
  lemma AcceptedBytes(buf: Bytes)
    ensures Parse(buf).Some? <==>
            && |buf| >= 106 && buf[..5] == [0x52, 0x47, 0x36, 0x00, 6]
            && Number(buf[54..58]) == |buf| - 106 <= 1048576
  {
    hide Number;
    if |buf| >= 106 {
      assert buf[..5] == buf[..4] + [buf[4]];
      assert [0x52, 0x47, 0x36, 0x00, 6] == MAGIC + [PROTO_VERSION];
    }
  }

  /** Where the fields of an accepted buffer lie, and that header and MAC input are prefixes of it. */
  lemma FieldsOf(buf: Bytes)
    requires Parse(buf).Some?
    ensures var f, n := Parse(buf).value, |buf|;
            && n >= 106 && f.messageType == buf[5] && f.sessionId == buf[6..22] && f.counter == Number(buf[22..30])
            && f.nonce == buf[30..54] && f.payload == buf[58..n - 48] && f.tag == buf[n - 48..n - 32]
            && f.mac == buf[n - 32..] && Serialize(f) == buf && PreMac(f) == buf[..n - 32]
            && Header(f.messageType, f.sessionId, f.counter, f.nonce, |f.payload|) == buf[..58]
  {
    SerializeParse(buf);
    SerializedFields(Parse(buf).value);
    hide Number, Header;
    assert Serialize(Parse(buf).value) == PreMac(Parse(buf).value) + Parse(buf).value.mac;
  }

  /** No accepted buffer is a proper prefix of another. */
  lemma PrefixFree(a: Bytes, b: Bytes)
    requires Parse(a).Some? && Parse(b).Some? && a <= b
    ensures a == b
  {
    hide Number;
    assert a[54..58] == b[54..58];
  }

  // ---- building ---------------------------------------------------------------------------------------------

  /** v shifted right by k bytes. */
  function Shifted(v: nat, k: nat): nat { if k == 0 then v else Shifted(v / 256, k - 1) }

  lemma {:induction false} ShiftedNext(v: nat, k: nat)
    ensures Shifted(v, k + 1) == Shifted(v, k) / 256
  {
    if k > 0 { ShiftedNext(v / 256, k - 1); }
  }

  /** The loop of `be64`. */
  method PutBe64(v: nat) returns (out: Bytes)
    ensures out == BigEndian(v, 8)
  {
    out := [];
    for i := 0 to 8
      invariant out == BigEndian(Shifted(v, 8 - i), i)
    {
      ShiftedNext(v, 7 - i);
      out := out + [Shifted(v, 7 - i) % 256];
    }
  }

  /** The loop of `rd_be64`. */
  method GetBe64(b: Bytes) returns (v: nat)
    requires |b| == 8
    ensures v == Number(b)
  {
    v := 0;
    for i := 0 to 8
      invariant v == Number(b[..i])
    {
      assert b[..i + 1][..i] == b[..i];
      v := v * 256 + b[i];
    }
    assert b[..8] == b;
  }

  /** The appends of the client's `serialize`. */
  method SerializeClient(f: Frame) returns (b: Bytes)
    ensures b == Serialize(f)
  {
    hide BigEndian, Pow256;
    b := MAGIC;
    b := b + [PROTO_VERSION];
    b := b + [f.messageType];
    b := b + f.sessionId;
    var c := PutBe64(f.counter);
    b := b + c;
    b := b + f.nonce;
    b := b + BigEndian(|f.payload|, 4);
    assert b == Header(f.messageType, f.sessionId, f.counter, f.nonce, |f.payload|);
    b := b + f.payload;
    b := b + f.tag;
    b := b + f.mac;
  }

  // ---- parsing with a cursor --------------------------------------------------------------------------------

  /** The buffer and the offset that `take` moves. */
  class Reader {
    const buf: Bytes
    var off: nat

    ghost predicate Valid() reads this { off <= |buf| }

    constructor (buf: Bytes)
      ensures Valid() && off == 0 && this.buf == buf
    {
      this.buf := buf;
      off := 0;
    }

    /** The client compares offsets before it takes. */
    method Take(n: nat) returns (chunk: Option<Bytes>)
      requires Valid()
      modifies this
      ensures Valid()
      ensures old(off) + n <= |buf| ==> chunk == Some(buf[old(off)..old(off) + n]) && off == old(off) + n
      ensures old(off) + n > |buf| ==> chunk == None && off == old(off)
    {
      if off + n > |buf| { return None; }
      chunk := Some(buf[off..off + n]);
      off := off + n;
    }

    /** The server takes a slice, which may come out short, and then looks at its length. */
    method TakeSlice(n: nat) returns (chunk: Option<Bytes>)
      requires Valid()
      modifies this
      ensures Valid()
      ensures old(off) + n <= |buf| ==> chunk == Some(buf[old(off)..old(off) + n]) && off == old(off) + n
      ensures old(off) + n > |buf| ==> chunk == None && off == old(off)
    {
      var slice := buf[off..if off + n <= |buf| then off + n else |buf|];
      if |slice| != n { return None; }
      off := off + n;
      chunk := Some(slice);
    }
  }

  /** The client's parser. */
  method ParseClient(buf: Bytes) returns (r: Option<Frame>)
    ensures r == Parse(buf)
  {
    hide Number;
    if |buf| < MIN_SIZE { return None; }
    var reader := new Reader(buf);
    var magic :- reader.Take(4);
    if magic != MAGIC { return None; }
    var version :- reader.Take(1);
    if version[0] != PROTO_VERSION { return None; }
    var messageType :- reader.Take(1);
    var sessionId :- reader.Take(16);
    var counterBytes :- reader.Take(8);
    var counter := GetBe64(counterBytes);
    var nonce :- reader.Take(24);
    var lenBytes :- reader.Take(4);
    var n := Number(lenBytes);
    if n > MAX_PAYLOAD { return None; }
    var payload :- reader.Take(n);
    var tag :- reader.Take(16);
    var mac :- reader.Take(32);
    if reader.off != |buf| { return None; }
    assert mac == buf[74 + n..];
    r := Some(Frame(messageType[0], sessionId, counter, nonce, payload, tag, mac));
  }

  /** The server's parser: the same buffers, the same frames. */
  method ParseServer(buf: Bytes) returns (r: Option<Frame>)
    ensures r == Parse(buf)
  {
    hide Number;
    if |buf| < MIN_SIZE { return None; }
    var reader := new Reader(buf);
    var magic :- reader.TakeSlice(4);
    if magic != MAGIC { return None; }
    var version :- reader.TakeSlice(1);
    if version[0] != PROTO_VERSION { return None; }
    var messageType :- reader.TakeSlice(1);
    var sessionId :- reader.TakeSlice(16);
    var counterBytes :- reader.TakeSlice(8);
    var counter := GetBe64(counterBytes);
    var nonce :- reader.TakeSlice(24);
    var lenBytes :- reader.TakeSlice(4);
    var n := Number(lenBytes);
    if n > MAX_PAYLOAD { return None; }
    var payload :- reader.TakeSlice(n);
    var tag :- reader.TakeSlice(16);
    var mac :- reader.TakeSlice(32);
    if reader.off != |buf| { return None; }
    assert mac == buf[74 + n..];
    r := Some(Frame(messageType[0], sessionId, counter, nonce, payload, tag, mac));
  }
}
