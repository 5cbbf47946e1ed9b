/** The canonical form of a username; a raw name is a string of Latin-1 codes, on which NFC is the identity. */
module Usernames {
  import opened ByteStrings

  const USERNAME_CAP: nat := 64

  predicate IsSpace(c: byte) { c == 0x20 || c == 0x09 || c == 0x0D || c == 0x0A }

  predicate Printable(c: byte) { 0x20 <= c <= 0x7E }

  predicate AllPrintable(s: Bytes) { forall i :: 0 <= i < |s| ==> Printable(s[i]) }

  function Lower(c: byte): byte { if 0x41 <= c <= 0x5A then c + 0x20 else c }

  function TrimLeft(s: Bytes): (r: Bytes)
    ensures |r| <= |s|
  { if s != [] && IsSpace(s[0]) then TrimLeft(s[1..]) else s }

  function TrimRight(s: Bytes): (r: Bytes)
    ensures |r| <= |s|
  { if s != [] && IsSpace(s[|s| - 1]) then TrimRight(s[..|s| - 1]) else s }

  function Lowered(s: Bytes): (r: Bytes)
    ensures |r| == |s|
  { seq(|s|, i requires 0 <= i < |s| => Lower(s[i])) }

  function Normalized(raw: Bytes): Option<Bytes> {
    var s := TrimRight(TrimLeft(raw));
    if 1 <= |s| <= USERNAME_CAP && AllPrintable(s) then Some(Lowered(s)) else None
  }

  // ---- what a canonical name is -----------------------------------------------------------------------------

  /** 1 to 64 printable characters, none of them a capital, no space at either end. */
  predicate Canonical(u: Bytes) {
    && 1 <= |u| <= USERNAME_CAP && !IsSpace(u[0]) && !IsSpace(u[|u| - 1])
    && forall i :: 0 <= i < |u| ==> Printable(u[i]) && Lower(u[i]) == u[i]
  }

  lemma {:induction false} TrimLeftEnds(s: Bytes)
    ensures TrimLeft(s) != [] ==> !IsSpace(TrimLeft(s)[0]) && TrimLeft(s)[|TrimLeft(s)| - 1] == s[|s| - 1]
  {
    if s != [] && IsSpace(s[0]) { TrimLeftEnds(s[1..]); }
  }

  lemma {:induction false} TrimRightEnds(s: Bytes)
    ensures TrimRight(s) <= s
    ensures TrimRight(s) != [] ==> !IsSpace(TrimRight(s)[|TrimRight(s)| - 1])
  {
    if s != [] && IsSpace(s[|s| - 1]) { TrimRightEnds(s[..|s| - 1]); }
  }

  /** Accepted names come out canonical, and exactly the canonical names are left as they are. */
  lemma NormalizedIsCanonical(raw: Bytes)
    ensures Normalized(raw).Some? ==> Canonical(Normalized(raw).value)
    ensures Canonical(raw) <==> Normalized(raw) == Some(raw)
  {
    var l := TrimLeft(raw);
    var s := TrimRight(l);
    TrimLeftEnds(raw);
    TrimRightEnds(l);
    hide TrimLeft, TrimRight;
    if Canonical(raw) {
      NothingToTrim(raw);
      assert Lowered(raw) == raw;
    }
  }

  lemma NothingToTrim(s: Bytes)
    requires Canonical(s)
    ensures TrimLeft(s) == s && TrimRight(s) == s
  {}

  /** Normalizing twice is normalizing once: the server may normalize what the client already has. */
  lemma NormalizedTwice(raw: Bytes)
    requires Normalized(raw).Some?
    ensures Normalized(Normalized(raw).value) == Normalized(raw)
  {
    hide Normalized, Canonical;
    NormalizedIsCanonical(raw);
    NormalizedIsCanonical(Normalized(raw).value);
  }

  /** Both trims unrolled once. */
  lemma TrimStep(s: Bytes)
    ensures TrimLeft(s) == if s != [] && IsSpace(s[0]) then TrimLeft(s[1..]) else s
    ensures TrimRight(s) == if s != [] && IsSpace(s[|s| - 1]) then TrimRight(s[..|s| - 1]) else s
  {}

  lemma {:induction false} TrimPadded(a: Bytes, s: Bytes, b: Bytes)
    requires s != [] && !IsSpace(s[0]) && !IsSpace(s[|s| - 1])
    requires forall i :: 0 <= i < |a| ==> IsSpace(a[i])
    requires forall i :: 0 <= i < |b| ==> IsSpace(b[i])
    ensures TrimRight(TrimLeft(a + s + b)) == s
    decreases |a| + |b|
  {
    hide TrimLeft, TrimRight, IsSpace;
    var t := a + s + b;
    TrimStep(t);
    if a != [] {
      assert t[0] == a[0] && t[1..] == a[1..] + s + b;
      TrimPadded(a[1..], s, b);
    } else {
      TrimRightPadded(s, b);
      assert t == s + b && t[0] == s[0];
    }
  }

  lemma {:induction false} TrimRightPadded(s: Bytes, b: Bytes)
    requires s != [] && !IsSpace(s[|s| - 1])
    requires forall i :: 0 <= i < |b| ==> IsSpace(b[i])
    ensures TrimRight(s + b) == s
  {
    hide TrimLeft, TrimRight, IsSpace;
    TrimStep(s + b);
    if b == [] {
      assert s + b == s;
    } else {
      var n := |b| - 1;
      assert (s + b)[|s + b| - 1] == b[n] && (s + b)[..|s + b| - 1] == s + b[..n];
      TrimRightPadded(s, b[..n]);
    }
  }

  lemma LoweredLaws(s: Bytes)
    ensures Lowered(Lowered(s)) == Lowered(s) && AllPrintable(Lowered(s)) == AllPrintable(s)
    ensures s != [] ==> IsSpace(Lowered(s)[0]) == IsSpace(s[0]) && IsSpace(Lowered(s)[|s| - 1]) == IsSpace(s[|s| - 1])
  {
    assert forall i :: 0 <= i < |s| ==> Printable(Lowered(s)[i]) == Printable(s[i]);
    assert Lowered(Lowered(s)) == Lowered(s);
  }

  /** Spaces around a name and the case of its letters do not matter. */
  lemma SpaceAndCaseDoNotMatter(a: Bytes, s: Bytes, b: Bytes)
    requires s != [] && !IsSpace(s[0]) && !IsSpace(s[|s| - 1])
    requires forall i :: 0 <= i < |a| ==> IsSpace(a[i])
    requires forall i :: 0 <= i < |b| ==> IsSpace(b[i])
    ensures Normalized(a + s + b) == Normalized(Lowered(s))
  {
    hide TrimLeft, TrimRight, Lowered, AllPrintable;
    LoweredLaws(s);
    TrimPadded(a, s, b);
    TrimPadded([], Lowered(s), []);
    assert [] + Lowered(s) + [] == Lowered(s);
  }

  // ---- the two implementations ------------------------------------------------------------------------------

  /** The loop over the trimmed characters. */
  method LowerAll(s: Bytes) returns (r: Option<Bytes>)
    ensures r == if AllPrintable(s) then Some(Lowered(s)) else None
  {
    var out: Bytes := [];
    for i := 0 to |s|
      invariant forall j :: 0 <= j < i ==> Printable(s[j])
      invariant out == Lowered(s[..i])
    {
      var c := s[i];
      if c < 0x20 || c > 0x7E { return None; }
      if 0x41 <= c <= 0x5A { c := c + 0x20; }
      out := out + [c];
    }
    assert s[..|s|] == s;
    r := Some(out);
  }

  /** The client moves two indices inwards over the spaces. */
  method NormalizeClient(raw: Bytes) returns (r: Option<Bytes>)
    ensures r == Normalized(raw)
  {
    hide TrimLeft, TrimRight, AllPrintable, Lowered;
    var b, e := 0, |raw|;
    assert raw[0..] == raw;
    while b < e && IsSpace(raw[b])
      invariant 0 <= b <= e == |raw| && TrimLeft(raw[b..]) == TrimLeft(raw)
    {
      TrimStep(raw[b..]);
      assert raw[b..][1..] == raw[b + 1..];
      b := b + 1;
    }
    TrimStep(raw[b..]);
    assert raw[b..e] == raw[b..];
    while e > b && IsSpace(raw[e - 1])
      invariant b <= e <= |raw| && TrimRight(raw[b..e]) == TrimRight(TrimLeft(raw))
    {
      TrimStep(raw[b..e]);
      assert raw[b..e][..e - b - 1] == raw[b..e - 1];
      e := e - 1;
    }
    TrimStep(raw[b..e]);
    var s := raw[b..e];
    if s == [] || |s| > USERNAME_CAP { return None; }
    r := LowerAll(s);
  }

  /** The server strips with the library and checks the length first, too. */
  method NormalizeServer(raw: Bytes) returns (r: Option<Bytes>)
    ensures r == Normalized(raw)
  {
    var s := TrimRight(TrimLeft(raw));
    if !(1 <= |s| <= USERNAME_CAP) { return None; }
    r := LowerAll(s);
  }

  // ---- a name by example and by codes -----------------------------------------------------------------------

  /** The canonical names by their codes. */
  lemma CanonicalCodes(u: Bytes)
    ensures Canonical(u) <==>
            && 1 <= |u| <= 64 && u[0] != 0x20 && u[|u| - 1] != 0x20
            && forall i :: 0 <= i < |u| ==> 0x20 <= u[i] <= 0x7E && !(0x41 <= u[i] <= 0x5A)
  {}

  /** A normalized name is the trimmed one with 32 added to the capitals. */
  lemma NormalizedCodes(a: Bytes, s: Bytes, b: Bytes)
    requires s != [] && !IsSpace(s[0]) && !IsSpace(s[|s| - 1])
    requires forall i :: 0 <= i < |a| ==> a[i] in {0x20, 0x09, 0x0D, 0x0A}
    requires forall i :: 0 <= i < |b| ==> b[i] in {0x20, 0x09, 0x0D, 0x0A}
    ensures var r := Normalized(a + s + b);
            && (r.Some? <==> |s| <= 64 && forall i :: 0 <= i < |s| ==> 0x20 <= s[i] <= 0x7E)
            && (r.Some? ==>
                  && |r.value| == |s|
                  && forall i :: 0 <= i < |s| ==>
                       r.value[i] as int == s[i] + if 0x41 <= s[i] <= 0x5A then 32 else 0)
  {
    TrimPadded(a, s, b);
    hide TrimLeft, TrimRight;
  }
}
