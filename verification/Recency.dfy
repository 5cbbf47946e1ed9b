/** Orders of last touch: what the bounded store keeps, and when it drops an id. */
module Recency {
  import opened ByteStrings

  const MAX_SESSIONS: nat := 1024

  ghost predicate Distinct(o: seq<Bytes>) { forall i, j :: 0 <= i < j < |o| ==> o[i] != o[j] }

  function Without(o: seq<Bytes>, id: Bytes): (r: seq<Bytes>)
    ensures |r| <= |o|
  { if o == [] then [] else Without(o[..|o| - 1], id) + (if o[|o| - 1] == id then [] else [o[|o| - 1]]) }

  function MovedToEnd(o: seq<Bytes>, id: Bytes): (r: seq<Bytes>)
    ensures |r| > 0 && r[|r| - 1] == id
  { Without(o, id) + [id] }

  /** The last n elements. */
  function LastOf(o: seq<Bytes>, n: nat): seq<Bytes> { if |o| <= n then o else o[|o| - n..] }

  /** One touch: the id moves to the end, and the oldest one leaves a store that is over its bound. */
  function Touched(o: seq<Bytes>, id: Bytes): seq<Bytes> { LastOf(MovedToEnd(o, id), MAX_SESSIONS) }

  function TouchedAll(o: seq<Bytes>, ids: seq<Bytes>): seq<Bytes> {
    if ids == [] then o else Touched(TouchedAll(o, ids[..|ids| - 1]), ids[|ids| - 1])
  }

  function ToSet(o: seq<Bytes>): set<Bytes> { set x | x in o }

  lemma {:induction false} WithoutMembers(o: seq<Bytes>, id: Bytes)
    ensures forall x :: x in Without(o, id) <==> x in o && x != id
  {
    if o != [] {
      var n := |o| - 1;
      WithoutMembers(o[..n], id);
      assert o == o[..n] + [o[n]];
    }
  }

  lemma {:induction false} WithoutAbsent(o: seq<Bytes>, id: Bytes)
    requires id !in o
    ensures Without(o, id) == o
  {
    if o != [] {
      WithoutAbsent(o[..|o| - 1], id);
      assert o == o[..|o| - 1] + [o[|o| - 1]] && o[|o| - 1] in o;
    }
  }

  lemma {:induction false} WithoutDistinct(o: seq<Bytes>, id: Bytes)
    requires Distinct(o)
    ensures Distinct(Without(o, id))
  {
    if o != [] {
      var n := |o| - 1;
      WithoutDistinct(o[..n], id);
      WithoutMembers(o[..n], id);
      if o[n] != id { DistinctAppend(Without(o[..n], id), o[n]); }
    }
  }

  lemma DistinctAppend(w: seq<Bytes>, x: Bytes)
    requires Distinct(w) && x !in w
    ensures Distinct(w + [x])
  {}

  lemma {:induction false} WithoutSize(o: seq<Bytes>, id: Bytes)
    requires Distinct(o)
    ensures |Without(o, id)| == |o| - if id in o then 1 else 0
  {
    if o != [] {
      var n := |o| - 1;
      if o[n] == id {
        WithoutAbsent(o[..n], id);
      } else {
        WithoutSize(o[..n], id);
      }
    }
  }

  lemma WithoutIs(o: seq<Bytes>, id: Bytes)
    ensures forall x :: x in Without(o, id) <==> x in o && x != id
    ensures id !in o ==> Without(o, id) == o
    ensures Distinct(o) ==> Distinct(Without(o, id)) && |Without(o, id)| == |o| - if id in o then 1 else 0
  {
    hide Without, Distinct;
    WithoutMembers(o, id);
    if id !in o { WithoutAbsent(o, id); }
    if Distinct(o) {
      WithoutDistinct(o, id);
      WithoutSize(o, id);
    }
  }

  lemma {:induction false} WithoutConcat(a: seq<Bytes>, b: seq<Bytes>, id: Bytes)
    ensures Without(a + b, id) == Without(a, id) + Without(b, id)
  {
    if b == [] {
      assert a + b == a;
    } else {
      var n := |b| - 1;
      assert (a + b)[..|a + b| - 1] == a + b[..n];
      WithoutConcat(a, b[..n], id);
    }
  }

  lemma {:induction false} DistinctSize(o: seq<Bytes>)
    requires Distinct(o)
    ensures |ToSet(o)| == |o|
  {
    if o != [] {
      var n := |o| - 1;
      DistinctSize(o[..n]);
      assert ToSet(o) == ToSet(o[..n]) + {o[n]};
    }
  }

  ghost predicate Bounded(o: seq<Bytes>) { Distinct(o) && |o| <= MAX_SESSIONS }

  lemma TouchedBounded(o: seq<Bytes>, id: Bytes)
    requires Bounded(o)
    ensures Bounded(Touched(o, id)) && id in Touched(o, id)
    ensures id in o ==> Touched(o, id) == MovedToEnd(o, id)
    ensures forall x :: x in Touched(o, id) ==> x == id || x in o
  {
    WithoutIs(o, id);
    hide Without;
    var m := MovedToEnd(o, id);
    assert Distinct(m);
    assert Touched(o, id)[|Touched(o, id)| - 1] == id;
  }

  // ---- the store is an LRU list -----------------------------------------------------------------------------

  /** Every id ever touched, ordered by its last touch; nothing is dropped. */
  function ByLastTouch(ids: seq<Bytes>): seq<Bytes> {
    if ids == [] then [] else MovedToEnd(ByLastTouch(ids[..|ids| - 1]), ids[|ids| - 1])
  }

  lemma {:induction false} ByLastTouchDistinct(ids: seq<Bytes>)
    ensures Distinct(ByLastTouch(ids))
  {
    if ids != [] {
      ByLastTouchDistinct(ids[..|ids| - 1]);
      WithoutIs(ByLastTouch(ids[..|ids| - 1]), ids[|ids| - 1]);
    }
  }

  /** The bounded store holds exactly the 1024 most recently touched ids, in that order. */
  lemma {:induction false} StoreIsLru(ids: seq<Bytes>)
    ensures TouchedAll([], ids) == LastOf(ByLastTouch(ids), 1024)
  {
    if ids != [] {
      var n := |ids| - 1;
      StoreIsLru(ids[..n]);
      ByLastTouchDistinct(ids[..n]);
      TouchOfLast(ByLastTouch(ids[..n]), ids[n]);
    }
  }

  /** Dropping the oldest before or after a touch makes no difference. */
  lemma TouchOfLast(all: seq<Bytes>, id: Bytes)
    requires Distinct(all)
    ensures Touched(LastOf(all, MAX_SESSIONS), id) == LastOf(MovedToEnd(all, id), MAX_SESSIONS)
  {
    hide Without;
    if |all| > MAX_SESSIONS {
      var k := |all| - MAX_SESSIONS;
      var last := all[k..];
      assert all == all[..k] + last;
      WithoutConcat(all[..k], last, id);
      WithoutDropped(last, id);
      var a, b := Without(all[..k], id), Without(last, id);
      var m := b + [id];
      assert MovedToEnd(all, id) == a + m;
      LastOfConcat(a, m, MAX_SESSIONS);
    }
  }

  lemma WithoutDropped(last: seq<Bytes>, id: Bytes)
    requires Distinct(last)
    ensures |Without(last, id)| == |last| - if id in last then 1 else 0
  {
    WithoutIs(last, id);
  }

  lemma LastOfConcat(a: seq<Bytes>, m: seq<Bytes>, n: nat)
    requires |m| >= n
    ensures LastOf(a + m, n) == LastOf(m, n)
  {}

  // ---- when an id is dropped --------------------------------------------------------------------------------

  /** The ids touched after `id`. */
  function Behind(o: seq<Bytes>, id: Bytes): set<Bytes> {
    if o == [] || o[|o| - 1] == id then {} else Behind(o[..|o| - 1], id) + {o[|o| - 1]}
  }

  lemma {:induction false} BehindSplit(a: seq<Bytes>, id: Bytes, b: seq<Bytes>)
    requires id !in b
    ensures Behind(a + [id] + b, id) == ToSet(b)
  {
    if b != [] {
      var n := |b| - 1;
      assert (a + [id] + b)[..|a| + 1 + n] == a + [id] + b[..n];
      BehindSplit(a, id, b[..n]);
      assert ToSet(b) == ToSet(b[..n]) + {b[n]};
    }
  }

  lemma SplitAt(o: seq<Bytes>, id: Bytes) returns (a: seq<Bytes>, b: seq<Bytes>)
    requires Distinct(o) && id in o
    ensures o == a + [id] + b && id !in a && id !in b && Behind(o, id) == ToSet(b)
  {
    var i :| 0 <= i < |o| && o[i] == id;
    a, b := o[..i], o[i + 1..];
    assert o == a + [id] + b;
    BehindSplit(a, id, b);
  }

  /** Moving another id to the end keeps `id` in place and puts the other behind it. */
  lemma MoveOther(o: seq<Bytes>, id: Bytes, other: Bytes) returns (a: seq<Bytes>, b: seq<Bytes>)
    requires Distinct(o) && id in o && other != id
    ensures MovedToEnd(o, other) == a + [id] + b && id !in b && Distinct(b)
    ensures ToSet(b) == Behind(o, id) + {other}
  {
    hide Without, Behind, ToSet;
    var x, y := SplitAt(o, id);
    assert forall i :: 0 <= i < |y| ==> y[i] == o[|x| + 1 + i];
    WithoutConcat(x + [id], y, other);
    WithoutConcat(x, [id], other);
    WithoutIs([id], other);
    a, b := Without(x, other), Without(y, other) + [other];
    EndsWith(y, other);
  }

  lemma EndsWith(y: seq<Bytes>, other: Bytes)
    requires Distinct(y)
    ensures var b := Without(y, other) + [other]; Distinct(b) && ToSet(b) == ToSet(y) + {other}
    ensures forall x :: x in Without(y, other) ==> x in y
  {
    WithoutIs(y, other);
    hide Without;
    var b := Without(y, other) + [other];
    forall z ensures z in b <==> z in y || z == other {
      assert z in b <==> z in Without(y, other) || z in [other];
    }
    assert ToSet(b) == ToSet(y) + {other};
  }

  /** What is left of a + [id] + b when the front may go. */
  lemma FrontGoes(a: seq<Bytes>, id: Bytes, b: seq<Bytes>)
    requires id !in b && Distinct(b) && |a| + 1 + |b| <= MAX_SESSIONS + 1
    ensures var rest := LastOf(a + [id] + b, MAX_SESSIONS);
            && (id in rest <==> |b| < MAX_SESSIONS)
            && (id in rest ==> Behind(rest, id) == ToSet(b))
  {
    hide Behind, ToSet, Distinct;
    var m := a + [id] + b;
    if |m| <= MAX_SESSIONS {
      assert m[|a|] == id;
      BehindSplit(a, id, b);
    } else if a == [] {
      assert m[1..] == b;
    } else {
      assert m[1..] == a[1..] + [id] + b && m[1..][|a| - 1] == id;
      BehindSplit(a[1..], id, b);
    }
  }

  /** One touch of another id puts it behind, and drops `id` exactly when 1024 ids are then behind it. */
  lemma TouchOther(o: seq<Bytes>, id: Bytes, other: Bytes)
    requires Bounded(o) && id in o && other != id
    ensures id in Touched(o, other) <==> |Behind(o, id) + {other}| < MAX_SESSIONS
    ensures id in Touched(o, other) ==> Behind(Touched(o, other), id) == Behind(o, id) + {other}
  {
    hide MovedToEnd, Behind, LastOf, ToSet;
    var a, b := MoveOther(o, id, other);
    DistinctSize(b);
    TouchedSize(o, other);
    hide Distinct;
    FrontGoes(a, id, b);
  }

  lemma TouchedSize(o: seq<Bytes>, id: Bytes)
    requires Bounded(o)
    ensures |MovedToEnd(o, id)| <= MAX_SESSIONS + 1
    ensures |MovedToEnd(o, id)| - |Touched(o, id)| == if |MovedToEnd(o, id)| > MAX_SESSIONS then 1 else 0
  {
    WithoutIs(o, id);
  }

  lemma OwnTouch(o: seq<Bytes>, id: Bytes)
    requires Bounded(o)
    ensures Bounded(Touched(o, id)) && id in Touched(o, id) && Behind(Touched(o, id), id) == {}
  {
    TouchedBounded(o, id);
    hide Without, Distinct;
    assert Touched(o, id)[|Touched(o, id)| - 1] == id;
  }

  /** The touches of other ids after its own drop `id` exactly when there are 1024 different ones among them. */
  lemma {:induction false} DroppedExactly(o: seq<Bytes>, id: Bytes, others: seq<Bytes>)
    requires Bounded(o) && id !in others
    ensures var after := TouchedAll(Touched(o, id), others);
            && Bounded(after)
            && (id in after <==> |ToSet(others)| < 1024)
            && (id in after ==> Behind(after, id) == ToSet(others))
  {
    hide Touched, Behind, Bounded;
    if others == [] {
      OwnTouch(o, id);
      assert ToSet(others) == {};
    } else {
      var n := |others| - 1;
      DroppedExactly(o, id, others[..n]);
      var before := TouchedAll(Touched(o, id), others[..n]);
      TouchedBounded(before, others[n]);
      ToSetGrows(others);
      if id in before { TouchOther(before, id, others[n]); }
    }
  }

  lemma ToSetGrows(o: seq<Bytes>)
    requires o != []
    ensures ToSet(o) == ToSet(o[..|o| - 1]) + {o[|o| - 1]}
    ensures |ToSet(o[..|o| - 1])| <= |ToSet(o)|
  {
    assert ToSet(o) == ToSet(o[..|o| - 1]) + {o[|o| - 1]};
    SubsetSize(ToSet(o[..|o| - 1]), ToSet(o));
  }

  lemma SubsetSize(a: set<Bytes>, b: set<Bytes>)
    requires a <= b
    ensures |a| <= |b|
  {
    assert |b| == |a| + |b - a| by { assert b == a + (b - a); }
  }
}
