/** The blanks the client skips inside encoded text. */
module Blanks {

  predicate Blank(c: char) { c == ' ' || c == '\t' || c == '\r' || c == '\n' }

  function Unblanked(t: string): string {
    if t == [] then [] else (if Blank(t[0]) then [] else [t[0]]) + Unblanked(t[1..])
  }

  lemma {:induction false} UnblankedPlain(t: string)
    requires forall i :: 0 <= i < |t| ==> !Blank(t[i])
    ensures Unblanked(t) == t
  {
    hide Blank;
    if t != [] {
      UnblankedPlain(t[1..]);
      assert t == [t[0]] + t[1..];
    }
  }

  /** What is left are the characters that are no blanks. */
  lemma {:induction false} UnblankedHolds(t: string, c: char)
    ensures c in Unblanked(t) <==> c in t && !Blank(c)
  {
    hide Blank;
    if t != [] {
      UnblankedHolds(t[1..], c);
      assert c in t <==> c == t[0] || c in t[1..] by { assert t == [t[0]] + t[1..]; }
    }
  }

  lemma {:induction false} UnblankedConcat(a: string, b: string)
    ensures Unblanked(a + b) == Unblanked(a) + Unblanked(b)
  {
    hide Blank;
    if a == [] {
      assert a + b == b;
    } else {
      UnblankedConcat(a[1..], b);
      var first := if Blank(a[0]) then [] else [a[0]];
      assert (a + b)[0] == a[0] && (a + b)[1..] == a[1..] + b;
      assert first + (Unblanked(a[1..]) + Unblanked(b)) == first + Unblanked(a[1..]) + Unblanked(b);
    }
  }
}
