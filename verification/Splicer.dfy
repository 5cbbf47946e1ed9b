/**
 The generator of the string splicer: strings are cut, encoded, mixed with decoys and shuffled. For every outcome
 of the random choices, following the tables with the inverse transform rebuilds every string.
 */
module Splicer {
  import opened ByteStrings

  // ---- the byte transform -----------------------------------------------------------------------------------

  /** The low part moves up by the factor k, the rest comes in below. */
  function Turn(v: nat, m: nat, k: nat): nat
    requires m > 0
  { v % m * k + v / m }

  lemma TurnBound(v: nat)
    requires v < 256
    ensures Turn(v, 128, 2) < 256
    ensures Turn(v, 64, 4) < 256
    ensures Turn(v, 32, 8) < 256
    ensures Turn(v, 16, 16) < 256
    ensures Turn(v, 8, 32) < 256
    ensures Turn(v, 4, 64) < 256
    ensures Turn(v, 2, 128) < 256
  {}

  /** Rotation to the left by r mod 8. */
  function Rol8(v: byte, r: nat): byte {
    TurnBound(v);
    match r % 8
    case 0 => v
    case 1 => Turn(v, 128, 2)
    case 2 => Turn(v, 64, 4)
    case 3 => Turn(v, 32, 8)
    case 4 => Turn(v, 16, 16)
    case 5 => Turn(v, 8, 32)
    case 6 => Turn(v, 4, 64)
    case _ => Turn(v, 2, 128)
  }

  /** The inverse rotation. */
  function Ror8(v: byte, r: nat): byte {
    TurnBound(v);
    match r % 8
    case 0 => v
    case 1 => Turn(v, 2, 128)
    case 2 => Turn(v, 4, 64)
    case 3 => Turn(v, 8, 32)
    case 4 => Turn(v, 16, 16)
    case 5 => Turn(v, 32, 8)
    case 6 => Turn(v, 64, 4)
    case _ => Turn(v, 128, 2)
  }

  lemma TurnBack1(v: nat)
    requires v < 256
    ensures Turn(Turn(v, 128, 2), 2, 128) == v
  {
    var w := v % 128 * 2 + v / 128;
    assert w % 2 == v / 128 && w / 2 == v % 128;
  }

  lemma TurnBack2(v: nat)
    requires v < 256
    ensures Turn(Turn(v, 64, 4), 4, 64) == v
  {
    var w := v % 64 * 4 + v / 64;
    assert w % 4 == v / 64 && w / 4 == v % 64;
  }

  lemma TurnBack3(v: nat)
    requires v < 256
    ensures Turn(Turn(v, 32, 8), 8, 32) == v
  {
    var w := v % 32 * 8 + v / 32;
    assert w % 8 == v / 32 && w / 8 == v % 32;
  }

  lemma TurnBack4(v: nat)
    requires v < 256
    ensures Turn(Turn(v, 16, 16), 16, 16) == v
  {
    var w := v % 16 * 16 + v / 16;
    assert w % 16 == v / 16 && w / 16 == v % 16;
  }

  lemma TurnBack5(v: nat)
    requires v < 256
    ensures Turn(Turn(v, 8, 32), 32, 8) == v
  {
    var w := v % 8 * 32 + v / 8;
    assert w % 32 == v / 8 && w / 32 == v % 8;
  }

  lemma TurnBack6(v: nat)
    requires v < 256
    ensures Turn(Turn(v, 4, 64), 64, 4) == v
  {
    var w := v % 4 * 64 + v / 4;
    assert w % 64 == v / 4 && w / 64 == v % 4;
  }

  lemma TurnBack7(v: nat)
    requires v < 256
    ensures Turn(Turn(v, 2, 128), 128, 2) == v
  {
    var w := v % 2 * 128 + v / 2;
    assert w % 128 == v / 2 && w / 128 == v % 2;
  }

  lemma RorRol(v: byte, r: nat)
    ensures Ror8(Rol8(v, r), r) == v
  {
    hide Turn;
    TurnBack1(v);
    TurnBack2(v);
    TurnBack3(v);
    TurnBack4(v);
    TurnBack5(v);
    TurnBack6(v);
    TurnBack7(v);
  }

  /** Where a fragment lies in the pool and how its bytes are hidden. */
  datatype Frag = Frag(off: nat, len: nat, xr: byte, ad: byte, ro: nat)

  function Hide(c: byte, f: Frag): byte { Rol8(XorByte((c as int + f.ad) % 256, f.xr), f.ro) }

  function Unhide(b: byte, f: Frag): byte { (XorByte(Ror8(b, f.ro), f.xr) as int + 256 - f.ad) % 256 }

  lemma AddBack(c: byte, ad: byte)
    ensures ((c as int + ad) % 256 + 256 - ad) % 256 == c
  {}

  lemma UnhideHide(c: byte, f: Frag)
    ensures Unhide(Hide(c, f), f) == c
  {
    hide Rol8, Ror8, XorByte;
    var s: byte := (c as int + f.ad) % 256;
    AddBack(c, f.ad);
    RorRol(XorByte(s, f.xr), f.ro);
    XorByteLaws(s, f.xr, 0);
  }

  // ---- pool and fragments -----------------------------------------------------------------------------------

  predicate Fits(pool: Bytes, f: Frag) { f.off + f.len <= |pool| }

  /** What the inverse transform makes of a fragment. */
  function FragText(pool: Bytes, f: Frag): (t: Bytes)
    requires Fits(pool, f)
    ensures |t| == f.len
  { seq<byte>(f.len, i requires 0 <= i < f.len => Unhide(pool[f.off + i], f)) }

  /** Some number of the range; nothing else is known about the random choices. */
  method RandInt(lo: nat, hi: nat) returns (v: nat)
    requires lo <= hi
    ensures lo <= v <= hi
  {
    v :| lo <= v <= hi;
  }

  /** A chunk is encoded byte by byte and appended to the pool. */
  method EmitFragment(pool: Bytes, chunk: Bytes) returns (grown: Bytes, f: Frag)
    ensures pool <= grown && Fits(grown, f) && FragText(grown, f) == chunk
    ensures f.off == |pool| && |grown| == |pool| + |chunk|
  {
    hide Unhide, Hide;
    var xr := RandInt(0, 255);
    var ad := RandInt(0, 255);
    var ro := RandInt(0, 7);
    f := Frag(|pool|, |chunk|, xr, ad, ro);
    grown := pool;
    for i := 0 to |chunk|
      invariant |grown| == |pool| + i && pool <= grown
      invariant forall k :: 0 <= k < i ==> Unhide(grown[|pool| + k], f) == chunk[k]
    {
      UnhideHide(chunk[i], f);
      grown := grown + [Hide(chunk[i], f)];
    }
  }

  // ---- cutting the strings ----------------------------------------------------------------------------------

  /** A fragment with the number of its string and its place in it. */
  datatype Piece = Piece(name: nat, order: nat, frag: Frag)

  ghost predicate AllFit(pool: Bytes, ps: seq<Piece>) { forall j :: 0 <= j < |ps| ==> Fits(pool, ps[j].frag) }

  /** The text of pieces lo..hi. */
  function Text(pool: Bytes, ps: seq<Piece>, lo: nat, hi: nat): Bytes
    requires lo <= hi <= |ps| && AllFit(pool, ps)
    decreases hi
  { if lo == hi then [] else Text(pool, ps, lo, hi - 1) + FragText(pool, ps[hi - 1].frag) }

  lemma {:induction false} TextStays(pool: Bytes, grown: Bytes, ps: seq<Piece>, more: seq<Piece>, lo: nat, hi: nat)
    requires lo <= hi <= |ps| && AllFit(pool, ps) && pool <= grown && AllFit(grown, ps + more)
    ensures Text(grown, ps + more, lo, hi) == Text(pool, ps, lo, hi)
    decreases hi
  {
    hide Unhide;
    if lo < hi {
      TextStays(pool, grown, ps, more, lo, hi - 1);
      assert (ps + more)[hi - 1] == ps[hi - 1];
    }
  }

  /** String k is cut into the pieces starts[k]..starts[k + 1], in order. */
  ghost predicate CutInto(pool: Bytes, ps: seq<Piece>, starts: seq<nat>, strings: seq<Bytes>) {
    && AllFit(pool, ps) && |starts| == |strings| + 1 && starts[0] == 0 && starts[|strings|] == |ps|
    && (forall k, l :: 0 <= k <= l <= |strings| ==> starts[k] <= starts[l])
    && (forall k, j :: 0 <= k < |strings| && starts[k] <= j < starts[k + 1] ==>
          ps[j].name == k && ps[j].order == j - starts[k])
    && (forall k :: 0 <= k < |strings| ==> Text(pool, ps, starts[k], starts[k + 1]) == strings[k])
  }

  /** One string, in chunks of two to five bytes. */
  method CutString(pool: Bytes, ps: seq<Piece>, name: nat, data: Bytes) returns (grown: Bytes, more: seq<Piece>)
    requires AllFit(pool, ps)
    ensures pool <= grown && AllFit(grown, ps + more) && |grown| == |pool| + |data|
    ensures forall j :: 0 <= j < |more| ==> more[j].name == name && more[j].order == j
    ensures forall j :: 0 <= j < |more| ==> (if j < |more| - 1 then 2 else 1) <= more[j].frag.len <= 5
    ensures Text(grown, ps + more, |ps|, |ps + more|) == data
  {
    hide FragText;
    grown, more := pool, [];
    var i := 0;
    assert ps + more == ps;
    while i < |data|
      invariant 0 <= i <= |data| && pool <= grown && AllFit(grown, ps + more) && |grown| == |pool| + i
      invariant forall j :: 0 <= j < |more| ==> more[j].name == name && more[j].order == j
      invariant forall j :: 0 <= j < |more| ==> 1 <= more[j].frag.len <= 5
      invariant forall j :: 0 <= j < |more| && (i < |data| || j < |more| - 1) ==> 2 <= more[j].frag.len
      invariant Text(grown, ps + more, |ps|, |ps + more|) == data[..i]
    {
      var n := RandInt(2, 5);
      if |data| - i < n { n := |data| - i; }
      var before := grown;
      var f;
      grown, f := EmitFragment(grown, data[i..i + n]);
      var piece := Piece(name, |more|, f);
      OnePiece(before, grown, ps + more, piece, |ps|);
      assert ps + (more + [piece]) == ps + more + [piece];
      assert data[..i] + data[i..i + n] == data[..i + n];
      more := more + [piece];
      i := i + n;
    }
    assert data[..i] == data;
  }

  lemma OnePiece(pool: Bytes, grown: Bytes, ps: seq<Piece>, piece: Piece, lo: nat)
    requires AllFit(pool, ps) && pool <= grown && Fits(grown, piece.frag) && lo <= |ps|
    ensures AllFit(grown, ps + [piece])
    ensures Text(grown, ps + [piece], lo, |ps| + 1) == Text(pool, ps, lo, |ps|) + FragText(grown, piece.frag)
  {
    TextStays(pool, grown, ps, [piece], lo, |ps|);
  }

  lemma CutOneMore(pool: Bytes, ps: seq<Piece>, starts: seq<nat>, strings: seq<Bytes>, grown: Bytes, more: seq<Piece>,
                   data: Bytes)
    requires CutInto(pool, ps, starts, strings) && pool <= grown && AllFit(grown, ps + more)
    requires forall j :: 0 <= j < |more| ==> more[j].name == |strings| && more[j].order == j
    requires Text(grown, ps + more, |ps|, |ps + more|) == data
    ensures CutInto(grown, ps + more, starts + [|ps + more|], strings + [data])
  {
    hide Text;
    var starts', strings' := starts + [|ps + more|], strings + [data];
    forall k | 0 <= k < |strings'| ensures Text(grown, ps + more, starts'[k], starts'[k + 1]) == strings'[k] {
      if k < |strings| { TextStays(pool, grown, ps, more, starts[k], starts[k + 1]); }
    }
  }

  function TotalLength(strings: seq<Bytes>): nat {
    if strings == [] then 0 else TotalLength(strings[..|strings| - 1]) + |strings[|strings| - 1]|
  }

  method CutStrings(strings: seq<Bytes>) returns (pool: Bytes, ps: seq<Piece>, ghost starts: seq<nat>)
    ensures CutInto(pool, ps, starts, strings) && |pool| == TotalLength(strings)
  {
    hide CutInto, AllFit;
    pool, ps, starts := [], [], [0];
    NothingCut();
    assert strings[..0] == [];
    for k := 0 to |strings|
      invariant CutInto(pool, ps, starts, strings[..k]) && |pool| == TotalLength(strings[..k])
    {
      assert strings[..k + 1][..k] == strings[..k];
      CutFits(pool, ps, starts, strings[..k]);
      var grown, more := CutString(pool, ps, k, strings[k]);
      CutOneMore(pool, ps, starts, strings[..k], grown, more, strings[k]);
      assert strings[..k] + [strings[k]] == strings[..k + 1];
      starts := starts + [|ps + more|];
      pool, ps := grown, ps + more;
    }
    assert strings[..|strings|] == strings;
  }

  lemma NothingCut()
    ensures CutInto([], [], [0], [])
  {}

  lemma CutFits(pool: Bytes, ps: seq<Piece>, starts: seq<nat>, strings: seq<Bytes>)
    requires CutInto(pool, ps, starts, strings)
    ensures AllFit(pool, ps)
  {
    hide Text;
  }

  /** Junk fragments nobody refers to. */
  method AddDecoys(pool: Bytes, count: nat) returns (grown: Bytes, frags: seq<Frag>)
    ensures pool <= grown && |frags| == count
    ensures forall j :: 0 <= j < count ==> Fits(grown, frags[j]) && frags[j].off >= |pool|
  {
    grown, frags := pool, [];
    for c := 0 to count
      invariant pool <= grown && |frags| == c
      invariant forall j :: 0 <= j < c ==> Fits(grown, frags[j]) && frags[j].off >= |pool|
    {
      var n := RandInt(2, 5);
      var junk: Bytes := [];
      for i := 0 to n
        invariant |junk| == i
      {
        var b := RandInt(32, 126);
        junk := junk + [b];
      }
      var f;
      grown, f := EmitFragment(grown, junk);
      frags := frags + [f];
    }
  }

  // ---- shuffling and inverting ------------------------------------------------------------------------------

  /** `at` and `back` undo each other on 0..n. */
  ghost predicate Inverse(at: seq<nat>, back: seq<nat>, n: nat) {
    && |at| == |back| == n
    && (forall i :: 0 <= i < n ==> at[i] < n && back[i] < n)
    && (forall i :: 0 <= i < n ==> back[at[i]] == i && at[back[i]] == i)
  }

  lemma SwapInverse(at: seq<nat>, back: seq<nat>, n: nat, i: nat, j: nat)
    requires Inverse(at, back, n) && i < n && j < n
    ensures Inverse(at[i := at[j]][j := at[i]], back[at[i] := j][at[j] := i], n)
  {}

  method SwapAt(index: array<nat>, i: nat, j: nat, ghost back: seq<nat>) returns (ghost back': seq<nat>)
    requires Inverse(index[..], back, index.Length) && i < index.Length && j < index.Length
    modifies index
    ensures Inverse(index[..], back', index.Length)
  {
    SwapInverse(index[..], back, index.Length, i, j);
    back' := back[index[i] := j][index[j] := i];
    hide Inverse;
    index[i], index[j] := index[j], index[i];
  }

  /** The library's shuffle: swaps from the end, each with a place at or before it. */
  method Shuffle(n: nat) returns (index: array<nat>, ghost back: seq<nat>)
    ensures fresh(index) && index.Length == n && Inverse(index[..], back, n)
  {
    hide Inverse;
    index := new nat[n](i => i);
    back := seq(n, i => i);
    assert index[..] == back;
    IdentityInverse(back, n);
    var i := n;
    while i > 1
      invariant 0 <= i <= n && Inverse(index[..], back, n)
    {
      i := i - 1;
      var j := RandInt(0, i);
      back := SwapAt(index, i, j, back);
    }
  }

  lemma IdentityInverse(s: seq<nat>, n: nat)
    requires |s| == n && forall i :: 0 <= i < n ==> s[i] == i
    ensures Inverse(s, s, n)
  {}

  method Invert(index: seq<nat>, ghost back: seq<nat>) returns (inv: seq<nat>)
    requires Inverse(index, back, |index|)
    ensures inv == back
  {
    InverseBounds(index, back, |index|);
    hide Inverse;
    inv := seq(|index|, _ => 0);
    for pos := 0 to |index|
      invariant |inv| == |index| && forall v :: 0 <= v < |index| && back[v] < pos ==> inv[v] == back[v]
    {
      InverseAt(index, back, pos);
      inv := inv[index[pos] := pos];
    }
  }

  lemma InverseAt(at: seq<nat>, back: seq<nat>, pos: nat)
    requires Inverse(at, back, |at|) && pos < |at|
    ensures at[pos] < |at| && forall v :: 0 <= v < |at| ==> (back[v] == pos <==> v == at[pos])
  {
    forall v | 0 <= v < |at| ensures back[v] == pos <==> v == at[pos] {
      assert at[back[v]] == v && back[at[pos]] == pos;
    }
  }

  // ---- the tables -------------------------------------------------------------------------------------------

  datatype Ref = Ref(start: nat, count: nat)

  /** What the generated header holds. */
  datatype Tables = Tables(pool: Bytes, frags: seq<Frag>, flat: seq<nat>, refs: seq<Ref>)

  ghost predicate TablesFit(t: Tables) {
    && (forall f :: 0 <= f < |t.frags| ==> Fits(t.pool, t.frags[f]))
    && (forall i :: 0 <= i < |t.flat| ==> t.flat[i] < |t.frags|)
  }

  /** The fragments named by flat[lo..hi], decoded one after the other. */
  function Assembled(t: Tables, lo: nat, hi: nat): Bytes
    requires TablesFit(t) && lo <= hi <= |t.flat|
    decreases hi
  { if lo == hi then [] else Assembled(t, lo, hi - 1) + FragText(t.pool, t.frags[t.flat[hi - 1]]) }

  ghost predicate Rebuilds(t: Tables, r: Ref, data: Bytes)
    requires TablesFit(t)
  { r.start + r.count <= |t.flat| && Assembled(t, r.start, r.start + r.count) == data }

  function DecoyCount(pieces: nat): nat { if pieces / 3 > 8 then pieces / 3 else 8 }

  /**
   Every string is rebuilt; no id is used twice; the fragments referred to lie in the part of the pool that
   holds the strings, and the others, as many as there are decoys, lie behind it.
   */
  ghost predicate Faithful(t: Tables, strings: seq<Bytes>) {
    && TablesFit(t) && |t.refs| == |strings|
    && (forall k :: 0 <= k < |strings| ==> Rebuilds(t, t.refs[k], strings[k]))
    && (forall i, j :: 0 <= i < j < |t.flat| ==> t.flat[i] != t.flat[j])
    && |t.frags| == |t.flat| + DecoyCount(|t.flat|)
    && (forall f :: 0 <= f < |t.frags| ==>
          && (f in t.flat ==> t.frags[f].off + t.frags[f].len <= TotalLength(strings))
          && (f !in t.flat ==> t.frags[f].off >= TotalLength(strings)))
  }

  lemma SegmentOf(starts: seq<nat>, n: nat, j: nat) returns (l: nat)
    requires |starts| == n + 1 && starts[0] == 0 && j < starts[n]
    requires forall k, m :: 0 <= k <= m <= n ==> starts[k] <= starts[m]
    ensures l < n && starts[l] <= j < starts[l + 1]
  {
    l := 0;
    while starts[l + 1] <= j
      invariant l < n && starts[l] <= j
      decreases n - l
    {
      l := l + 1;
    }
  }

  lemma NameIs(pool: Bytes, ps: seq<Piece>, starts: seq<nat>, strings: seq<Bytes>, k: nat, j: nat)
    requires CutInto(pool, ps, starts, strings) && k < |strings| && j < |ps|
    ensures ps[j].name == k <==> starts[k] <= j < starts[k + 1]
  {
    hide Text;
    var l := SegmentOf(starts, |strings|, j);
  }

  /** The pieces of one string; they stand in order already, so that sorting by order leaves them. */
  method ItemsOf(ps: seq<Piece>, k: nat, ghost pool: Bytes, ghost starts: seq<nat>, ghost strings: seq<Bytes>)
    returns (items: seq<Piece>)
    requires CutInto(pool, ps, starts, strings) && k < |strings|
    ensures starts[k] <= starts[k + 1] <= |ps| && items == ps[starts[k]..starts[k + 1]]
    ensures forall a, b :: 0 <= a < b < |items| ==> items[a].order < items[b].order
  {
    hide Text;
    ghost var lo, hi := starts[k], starts[k + 1];
    items := [];
    for j := 0 to |ps|
      invariant lo <= hi <= |ps|
      invariant items == if j <= lo then [] else if j <= hi then ps[lo..j] else ps[lo..hi]
    {
      NameIs(pool, ps, starts, strings, k, j);
      if ps[j].name == k { items := items + [ps[j]]; }
    }
  }

  method IndexOf(ps: seq<Piece>, p: Piece) returns (i: nat)
    requires p in ps
    ensures i < |ps| && ps[i] == p
  {
    i := 0;
    while ps[i] != p
      invariant i < |ps| && forall j :: 0 <= j < i ==> ps[j] != p
      decreases |ps| - i
    {
      i := i + 1;
    }
  }

  lemma PiecesDiffer(pool: Bytes, ps: seq<Piece>, starts: seq<nat>, strings: seq<Bytes>, i: nat, j: nat)
    requires CutInto(pool, ps, starts, strings) && i < |ps| && j < |ps| && ps[i] == ps[j]
    ensures i == j
  {
    hide Text;
    var k := SegmentOf(starts, |strings|, i);
    NameIs(pool, ps, starts, strings, k, j);
  }

  method ResolveIds(ps: seq<Piece>, items: seq<Piece>, inv: seq<nat>, base: nat, ghost lo: nat, ghost pool: Bytes,
                    ghost starts: seq<nat>, ghost strings: seq<Bytes>) returns (ids: seq<nat>)
    requires CutInto(pool, ps, starts, strings) && lo + |items| <= |ps| && items == ps[lo..lo + |items|]
    requires base + |ps| <= |inv|
    ensures |ids| == |items| && forall i :: 0 <= i < |ids| ==> ids[i] == inv[base + lo + i]
  {
    hide CutInto;
    ids := [];
    for i := 0 to |items|
      invariant |ids| == i && forall j :: 0 <= j < i ==> ids[j] == inv[base + lo + j]
    {
      assert items[i] == ps[lo + i];
      var at := IndexOf(ps, items[i]);
      PiecesDiffer(pool, ps, starts, strings, at, lo + i);
      ids := ids + [inv[base + at]];
    }
  }

  /** The flat index lists the pieces of the strings one after the other. */
  method Flatten(ps: seq<Piece>, inv: seq<nat>, base: nat, count: nat, ghost pool: Bytes, ghost starts: seq<nat>,
                 ghost strings: seq<Bytes>) returns (flat: seq<nat>, refs: seq<Ref>)
    requires CutInto(pool, ps, starts, strings) && count == |strings| && base + |ps| <= |inv|
    ensures |flat| == |ps| && forall j :: 0 <= j < |ps| ==> flat[j] == inv[base + j]
    ensures |refs| == count && forall k :: 0 <= k < count ==> refs[k] == Ref(starts[k], starts[k + 1] - starts[k])
  {
    hide Text;
    flat, refs := [], [];
    for k := 0 to count
      invariant |refs| == k && forall l :: 0 <= l < k ==> refs[l] == Ref(starts[l], starts[l + 1] - starts[l])
      invariant |flat| == starts[k] && forall j :: 0 <= j < |flat| ==> flat[j] == inv[base + j]
    {
      var items := ItemsOf(ps, k, pool, starts, strings);
      var ids := ResolveIds(ps, items, inv, base, starts[k], pool, starts, strings);
      refs := refs + [Ref(|flat|, |ids|)];
      flat := flat + ids;
    }
  }

  lemma {:induction false} AssembledIsText(t: Tables, ps: seq<Piece>, lo: nat, hi: nat)
    requires TablesFit(t) && AllFit(t.pool, ps) && |t.flat| == |ps| && lo <= hi <= |ps|
    requires forall j :: 0 <= j < |ps| ==> t.frags[t.flat[j]] == ps[j].frag
    ensures Assembled(t, lo, hi) == Text(t.pool, ps, lo, hi)
    decreases hi
  {
    if lo < hi { AssembledIsText(t, ps, lo, hi - 1); }
  }

  /** The pieces behind the decoys, in the order of `index`. */
  method Arrange(frags: seq<Frag>, index: seq<nat>) returns (shuffled: seq<Frag>)
    requires |index| == |frags| && forall i :: 0 <= i < |index| ==> index[i] < |frags|
    ensures |shuffled| == |frags| && forall i :: 0 <= i < |frags| ==> shuffled[i] == frags[index[i]]
  {
    shuffled := [];
    for i := 0 to |index|
      invariant |shuffled| == i && forall j :: 0 <= j < i ==> shuffled[j] == frags[index[j]]
    {
      shuffled := shuffled + [frags[index[i]]];
    }
  }

  method FragsOf(ps: seq<Piece>) returns (frags: seq<Frag>)
    ensures |frags| == |ps| && forall j :: 0 <= j < |ps| ==> frags[j] == ps[j].frag
  {
    frags := [];
    for j := 0 to |ps|
      invariant |frags| == j && forall i :: 0 <= i < j ==> frags[i] == ps[i].frag
    {
      frags := frags + [ps[j].frag];
    }
  }

  lemma TablesAreFaithful(t: Tables, strings: seq<Bytes>, ps: seq<Piece>, starts: seq<nat>, index: seq<nat>,
                          back: seq<nat>,
                          frags: seq<Frag>, base: nat)
    requires CutInto(t.pool, ps, starts, strings) && Inverse(index, back, |frags|) && |frags| == base + |ps|
    requires base == DecoyCount(|ps|)
    requires forall f :: 0 <= f < |frags| ==> Fits(t.pool, frags[f])
    requires forall f :: 0 <= f < base ==> frags[f].off >= TotalLength(strings)
    requires forall j :: 0 <= j < |ps| ==>
               frags[base + j] == ps[j].frag && ps[j].frag.off + ps[j].frag.len <= TotalLength(strings)
    requires |t.frags| == |frags| && forall i :: 0 <= i < |frags| ==> t.frags[i] == frags[index[i]]
    requires |t.flat| == |ps| && forall j :: 0 <= j < |ps| ==> t.flat[j] == back[base + j]
    requires |t.refs| == |strings| && forall k :: 0 <= k < |strings| ==>
        t.refs[k] == Ref(starts[k], starts[k + 1] - starts[k])
    ensures Faithful(t, strings)
  {
    hide CutInto, Inverse, Rebuilds, Fits, TablesFit, TotalLength, DecoyCount;
    FlatFollows(t, ps, index, back, frags, base);
    EachIdOnce(t.flat, index, back, base, |frags|);
    WhereFragsLie(t, ps, index, back, frags, base, TotalLength(strings));
    forall k | 0 <= k < |strings| ensures Rebuilds(t, t.refs[k], strings[k]) {
      StringRebuilt(t, strings, ps, starts, k);
    }
  }

  lemma WhereFragsLie(t: Tables, ps: seq<Piece>, index: seq<nat>, back: seq<nat>, frags: seq<Frag>, base: nat,
                      total: nat)
    requires Inverse(index, back, |frags|) && |t.frags| == |frags| == base + |ps| && |t.flat| == |ps|
    requires forall f :: 0 <= f < base ==> frags[f].off >= total
    requires forall j :: 0 <= j < |ps| ==> ps[j].frag.off + ps[j].frag.len <= total
    requires forall i :: 0 <= i < |frags| ==> t.frags[i] == frags[index[i]]
    requires forall j :: 0 <= j < |ps| ==> t.flat[j] < |t.frags| && t.frags[t.flat[j]] == ps[j].frag
    requires forall f :: 0 <= f < |frags| ==> (index[f] < base <==> f !in t.flat)
    ensures forall f :: 0 <= f < |t.frags| ==>
              && (f in t.flat ==> t.frags[f].off + t.frags[f].len <= total)
              && (f !in t.flat ==> t.frags[f].off >= total)
  {
    InverseBounds(index, back, |frags|);
    hide Inverse;
    forall f | 0 <= f < |t.frags| && f in t.flat ensures t.frags[f].off + t.frags[f].len <= total {
      var j :| 0 <= j < |t.flat| && t.flat[j] == f;
    }
  }

  lemma FlatFollows(t: Tables, ps: seq<Piece>, index: seq<nat>, back: seq<nat>, frags: seq<Frag>, base: nat)
    requires Inverse(index, back, |frags|) && |frags| == base + |ps|
    requires forall f :: 0 <= f < |frags| ==> Fits(t.pool, frags[f])
    requires forall j :: 0 <= j < |ps| ==> frags[base + j] == ps[j].frag
    requires |t.frags| == |frags| && forall i :: 0 <= i < |frags| ==> t.frags[i] == frags[index[i]]
    requires |t.flat| == |ps| && forall j :: 0 <= j < |ps| ==> t.flat[j] == back[base + j]
    ensures TablesFit(t) && |index| == |frags|
    ensures forall j :: 0 <= j < |ps| ==>
              t.flat[j] < |frags| && t.frags[t.flat[j]] == ps[j].frag && index[t.flat[j]] == base + j
  {
    hide Fits;
    forall j | 0 <= j < |ps| ensures t.flat[j] < |frags| && t.frags[t.flat[j]] == ps[j].frag
        && index[t.flat[j]] == base + j {
      assert index[back[base + j]] == base + j;
    }
  }

  lemma StringRebuilt(t: Tables, strings: seq<Bytes>, ps: seq<Piece>, starts: seq<nat>, k: nat)
    requires CutInto(t.pool, ps, starts, strings) && TablesFit(t) && |t.flat| == |ps| && k < |strings| == |t.refs|
    requires forall j :: 0 <= j < |ps| ==> t.frags[t.flat[j]] == ps[j].frag
    requires t.refs[k] == Ref(starts[k], starts[k + 1] - starts[k])
    ensures Rebuilds(t, t.refs[k], strings[k])
  {
    hide Text, Assembled, Fits;
    AssembledIsText(t, ps, starts[k], starts[k + 1]);
  }

  lemma EachIdOnce(flat: seq<nat>, index: seq<nat>, back: seq<nat>, base: nat, n: nat)
    requires Inverse(index, back, n) && n == base + |flat|
    requires forall j :: 0 <= j < |flat| ==> flat[j] < n && index[flat[j]] == base + j
    ensures forall i, j :: 0 <= i < j < |flat| ==> flat[i] != flat[j]
    ensures forall f :: 0 <= f < n ==> (index[f] < base <==> f !in flat)
  {
    forall f | 0 <= f < n && index[f] >= base ensures f in flat {
      var j := index[f] - base;
      assert index[flat[j]] == index[f] && back[index[flat[j]]] == flat[j] && back[index[f]] == f;
    }
  }

  /** The generator: whatever the random choices, the tables rebuild the strings and leave the decoys alone. */
  method Generate(strings: seq<Bytes>) returns (t: Tables)
    ensures Faithful(t, strings)
    ensures |t.frags| == |t.flat| + if |t.flat| / 3 > 8 then |t.flat| / 3 else 8
  {
    hide CutInto, Inverse, Faithful, TotalLength;
    var pool, ps, starts := CutStrings(strings);
    PiecesFit(pool, ps, starts, strings);
    var count := if |ps| / 3 > 8 then |ps| / 3 else 8;
    var grown, frags := AddDecoys(pool, count);
    var genuine := FragsOf(ps);
    frags := frags + genuine;
    CutGrows(pool, grown, ps, starts, strings);
    var index, back := Shuffle(|frags|);
    InverseBounds(index[..], back, |frags|);
    var inv := Invert(index[..], back);
    var shuffled := Arrange(frags, index[..]);
    var flat, refs := Flatten(ps, inv, count, |strings|, grown, starts, strings);
    t := Tables(grown, shuffled, flat, refs);
    TablesAreFaithful(t, strings, ps, starts, index[..], back, frags, count);
  }

  lemma CutGrows(pool: Bytes, grown: Bytes, ps: seq<Piece>, starts: seq<nat>, strings: seq<Bytes>)
    requires CutInto(pool, ps, starts, strings) && pool <= grown
    ensures CutInto(grown, ps, starts, strings)
  {
    hide Text;
    assert ps + [] == ps;
    forall k | 0 <= k < |strings| ensures Text(grown, ps, starts[k], starts[k + 1]) == strings[k] {
      TextStays(pool, grown, ps, [], starts[k], starts[k + 1]);
    }
  }

  lemma InverseBounds(at: seq<nat>, back: seq<nat>, n: nat)
    requires Inverse(at, back, n)
    ensures |at| == |back| == n && forall i :: 0 <= i < n ==> at[i] < n && back[i] < n
  {}

  lemma PiecesFit(pool: Bytes, ps: seq<Piece>, starts: seq<nat>, strings: seq<Bytes>)
    requires CutInto(pool, ps, starts, strings)
    ensures forall j :: 0 <= j < |ps| ==> Fits(pool, ps[j].frag)
  {
    hide Text, Fits;
  }

  // ---- what the transform is --------------------------------------------------------------------------------

  lemma TurnModulo(w: nat, q: nat, n: nat)
    requires w < 255 && w + 255 * q == n
    ensures n % 255 == w
  {}

  lemma TurnIs1(v: nat)
    requires v < 255
    ensures Turn(v, 128, 2) == v * 2 % 255
  {
    assert Turn(v, 128, 2) == v % 128 * 2 + v / 128;
    TurnModulo(v % 128 * 2 + v / 128, v / 128, v * 2);
  }

  lemma TurnIs2(v: nat)
    requires v < 255
    ensures Turn(v, 64, 4) == v * 4 % 255
  {
    assert Turn(v, 64, 4) == v % 64 * 4 + v / 64;
    TurnModulo(v % 64 * 4 + v / 64, v / 64, v * 4);
  }

  lemma TurnIs3(v: nat)
    requires v < 255
    ensures Turn(v, 32, 8) == v * 8 % 255
  {
    assert Turn(v, 32, 8) == v % 32 * 8 + v / 32;
    TurnModulo(v % 32 * 8 + v / 32, v / 32, v * 8);
  }

  lemma TurnIs4(v: nat)
    requires v < 255
    ensures Turn(v, 16, 16) == v * 16 % 255
  {
    assert Turn(v, 16, 16) == v % 16 * 16 + v / 16;
    TurnModulo(v % 16 * 16 + v / 16, v / 16, v * 16);
  }

  lemma TurnIs5(v: nat)
    requires v < 255
    ensures Turn(v, 8, 32) == v * 32 % 255
  {
    assert Turn(v, 8, 32) == v % 8 * 32 + v / 8;
    TurnModulo(v % 8 * 32 + v / 8, v / 8, v * 32);
  }

  lemma TurnIs6(v: nat)
    requires v < 255
    ensures Turn(v, 4, 64) == v * 64 % 255
  {
    assert Turn(v, 4, 64) == v % 4 * 64 + v / 4;
    TurnModulo(v % 4 * 64 + v / 4, v / 4, v * 64);
  }

  lemma TurnIs7(v: nat)
    requires v < 255
    ensures Turn(v, 2, 128) == v * 128 % 255
  {
    assert Turn(v, 2, 128) == v % 2 * 128 + v / 2;
    TurnModulo(v % 2 * 128 + v / 2, v / 2, v * 128);
  }

  lemma RolValues(v: byte)
    ensures Rol8(v, 0) == v && Rol8(v, 1) == Turn(v, 128, 2) && Rol8(v, 2) == Turn(v, 64, 4)
    ensures Rol8(v, 3) == Turn(v, 32, 8) && Rol8(v, 4) == Turn(v, 16, 16) && Rol8(v, 5) == Turn(v, 8, 32)
    ensures Rol8(v, 6) == Turn(v, 4, 64) && Rol8(v, 7) == Turn(v, 2, 128)
  {
    hide Turn;
  }

  lemma SmallPowers()
    ensures Power2(0) == 1 && Power2(1) == 2 && Power2(2) == 4 && Power2(3) == 8
    ensures Power2(4) == 16 && Power2(5) == 32 && Power2(6) == 64 && Power2(7) == 128
  {
    assert Power2(3) == 8;
  }

  /** A rotation by r multiplies by 2^r modulo 255: the bits that leave at the top come in below. */
  lemma RolIsProduct(v: byte, r: nat)
    requires r < 8 && v < 255
    ensures Rol8(v, r) == v * Power2(r) % 255
  {
    hide Power2, Turn, Rol8;
    RolValues(v);
    SmallPowers();
    match r {
      case 0 =>
      case 1 => TurnIs1(v);
      case 2 => TurnIs2(v);
      case 3 => TurnIs3(v);
      case 4 => TurnIs4(v);
      case 5 => TurnIs5(v);
      case 6 => TurnIs6(v);
      case _ => TurnIs7(v);
    }
  }

  lemma SubtractBack(x: byte, ad: byte)
    ensures ((x as int + 256 - ad) % 256 + ad) % 256 == x
  {}

  /** A hidden byte turned back and cleared of the mask is the sum of byte and offset; so is a byte to be read. */
  lemma TransformIs(c: byte, f: Frag)
    ensures XorByte(Ror8(Hide(c, f), f.ro), f.xr) == (c as int + f.ad) % 256
    ensures (Unhide(c, f) as int + f.ad) % 256 == XorByte(Ror8(c, f.ro), f.xr)
  {
    hide Rol8, Ror8, XorByte;
    var s: byte := (c as int + f.ad) % 256;
    RorRol(XorByte(s, f.xr), f.ro);
    XorByteLaws(s, f.xr, 0);
    SubtractBack(XorByte(Ror8(c, f.ro), f.xr), f.ad);
  }
}
