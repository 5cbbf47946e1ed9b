/** The mixing inside BLAKE2b (section 3.1 of RFC 7693): for each message block a permutation of the 16-word state. */
module Blake2bRounds {
  import opened Words

  /** A 64-bit word of the state; the box keeps bit reasoning local. */
  datatype Lane = Lane(w: Word)

  function AddWord(a: Word, b: Word): Word { a + b }
  function SubWord(a: Word, b: Word): Word { a - b }
  function XorWord(a: Word, b: Word): Word { a ^ b }

  function Add(a: Lane, b: Lane): Lane { Lane(AddWord(a.w, b.w)) }
  function Sub(a: Lane, b: Lane): Lane { Lane(SubWord(a.w, b.w)) }
  function Xor(a: Lane, b: Lane): Lane { Lane(XorWord(a.w, b.w)) }

  predicate Rotation(n: nat) { n == 32 || n == 24 || n == 16 || n == 63 }

  function Ror32(w: Word): Word { w.RotateRight(32) }
  function Ror24(w: Word): Word { w.RotateRight(24) }
  function Ror16(w: Word): Word { w.RotateRight(16) }
  function Ror63(w: Word): Word { w.RotateRight(63) }
  function Rol32(w: Word): Word { w.RotateLeft(32) }
  function Rol24(w: Word): Word { w.RotateLeft(24) }
  function Rol16(w: Word): Word { w.RotateLeft(16) }
  function Rol63(w: Word): Word { w.RotateLeft(63) }

  function Ror(a: Lane, n: nat): Lane
    requires Rotation(n)
  { Lane(if n == 32 then Ror32(a.w) else if n == 24 then Ror24(a.w) else if n == 16 then Ror16(a.w) else Ror63(a.w)) }

  function Rol(a: Lane, n: nat): Lane
    requires Rotation(n)
  { Lane(if n == 32 then Rol32(a.w) else if n == 24 then Rol24(a.w) else if n == 16 then Rol16(a.w) else Rol63(a.w)) }

  lemma SubAddWords(a: Word, b: Word)
    ensures SubWord(AddWord(a, b), b) == a && AddWord(SubWord(a, b), b) == a
  {
    assert SubWord(a + b, b) == a;
    assert AddWord(a - b, b) == a;
  }

  lemma AddSub(a: Lane, b: Lane)
    ensures Sub(Add(a, b), b) == a && Add(Sub(a, b), b) == a
  {
    hide AddWord, SubWord;
    SubAddWords(a.w, b.w);
  }

  lemma XorXorWords(a: Word, b: Word)
    ensures XorWord(XorWord(a, b), b) == a
  {
    assert XorWord(a ^ b, b) == a;
  }

  lemma XorXor(a: Lane, b: Lane)
    ensures Xor(Xor(a, b), b) == a
  {
    hide XorWord;
    XorXorWords(a.w, b.w);
  }

  lemma RotateWords(w: Word)
    ensures Rol32(Ror32(w)) == w && Ror32(Rol32(w)) == w
    ensures Rol24(Ror24(w)) == w && Ror24(Rol24(w)) == w
    ensures Rol16(Ror16(w)) == w && Ror16(Rol16(w)) == w
    ensures Rol63(Ror63(w)) == w && Ror63(Rol63(w)) == w
  {
    assert Rol32(w.RotateRight(32)) == w && Ror32(w.RotateLeft(32)) == w;
    assert Rol24(w.RotateRight(24)) == w && Ror24(w.RotateLeft(24)) == w;
    assert Rol16(w.RotateRight(16)) == w && Ror16(w.RotateLeft(16)) == w;
    assert Rol63(w.RotateRight(63)) == w && Ror63(w.RotateLeft(63)) == w;
  }

  lemma RolRor(a: Lane, n: nat)
    requires Rotation(n)
    ensures Rol(Ror(a, n), n) == a && Ror(Rol(a, n), n) == a
  {
    hide Ror32, Ror24, Ror16, Ror63, Rol32, Rol24, Rol16, Rol63;
    RotateWords(a.w);
  }

  // ---- G ----------------------------------------------------------------------------------------------------

  datatype Quad = Quad(a: Lane, b: Lane, c: Lane, d: Lane)

  /** Four of the eight statements of G. */
  function Half(q: Quad, x: Lane, r1: nat, r2: nat): Quad
    requires Rotation(r1) && Rotation(r2)
  {
    var a := Add(Add(q.a, q.b), x);
    var d := Ror(Xor(q.d, a), r1);
    var c := Add(q.c, d);
    var b := Ror(Xor(q.b, c), r2);
    Quad(a, b, c, d)
  }

  function Unhalf(q: Quad, x: Lane, r1: nat, r2: nat): Quad
    requires Rotation(r1) && Rotation(r2)
  {
    var b := Xor(Rol(q.b, r2), q.c);
    var c := Sub(q.c, q.d);
    var d := Xor(Rol(q.d, r1), q.a);
    var a := Sub(Sub(q.a, x), b);
    Quad(a, b, c, d)
  }

  lemma HalfInverts(q: Quad, x: Lane, r1: nat, r2: nat)
    requires Rotation(r1) && Rotation(r2)
    ensures Unhalf(Half(q, x, r1, r2), x, r1, r2) == q
    ensures Half(Unhalf(q, x, r1, r2), x, r1, r2) == q
  {
    hide Add, Sub, Xor, Ror, Rol;
    var h := Half(q, x, r1, r2);
    RolRor(Xor(q.b, h.c), r2);
    XorXor(q.b, h.c);
    AddSub(q.c, h.d);
    RolRor(Xor(q.d, h.a), r1);
    XorXor(q.d, h.a);
    AddSub(Add(q.a, q.b), x);
    AddSub(q.a, q.b);
    var u := Unhalf(q, x, r1, r2);
    AddSub(Sub(q.a, x), u.b);
    AddSub(q.a, x);
    XorXor(Rol(q.d, r1), q.a);
    RolRor(q.d, r1);
    AddSub(q.c, q.d);
    XorXor(Rol(q.b, r2), q.c);
    RolRor(q.b, r2);
  }

  function G(q: Quad, x: Lane, y: Lane): Quad { Half(Half(q, x, 32, 24), y, 16, 63) }

  function InverseG(q: Quad, x: Lane, y: Lane): Quad { Unhalf(Unhalf(q, y, 16, 63), x, 32, 24) }

  lemma GInverts(q: Quad, x: Lane, y: Lane)
    ensures InverseG(G(q, x, y), x, y) == q && G(InverseG(q, x, y), x, y) == q
  {
    hide Half, Unhalf;
    HalfInverts(q, x, 32, 24);
    HalfInverts(Half(q, x, 32, 24), y, 16, 63);
    HalfInverts(q, y, 16, 63);
    HalfInverts(Unhalf(q, y, 16, 63), x, 32, 24);
  }

  // ---- the message schedule ---------------------------------------------------------------------------------

  function Row0(i: nat): (k: nat)
    ensures k < 16
  {
    if i == 0 then 0 else if i == 1 then 1 else if i == 2 then 2 else if i == 3 then 3
    else if i == 4 then 4 else if i == 5 then 5 else if i == 6 then 6 else if i == 7 then 7
    else if i == 8 then 8 else if i == 9 then 9 else if i == 10 then 10 else if i == 11 then 11
    else if i == 12 then 12 else if i == 13 then 13 else if i == 14 then 14 else 15
  }

  function Row1(i: nat): (k: nat)
    ensures k < 16
  {
    if i == 0 then 14 else if i == 1 then 10 else if i == 2 then 4 else if i == 3 then 8
    else if i == 4 then 9 else if i == 5 then 15 else if i == 6 then 13 else if i == 7 then 6
    else if i == 8 then 1 else if i == 9 then 12 else if i == 10 then 0 else if i == 11 then 2
    else if i == 12 then 11 else if i == 13 then 7 else if i == 14 then 5 else 3
  }

  function Row2(i: nat): (k: nat)
    ensures k < 16
  {
    if i == 0 then 11 else if i == 1 then 8 else if i == 2 then 12 else if i == 3 then 0
    else if i == 4 then 5 else if i == 5 then 2 else if i == 6 then 15 else if i == 7 then 13
    else if i == 8 then 10 else if i == 9 then 14 else if i == 10 then 3 else if i == 11 then 6
    else if i == 12 then 7 else if i == 13 then 1 else if i == 14 then 9 else 4
  }

  function Row3(i: nat): (k: nat)
    ensures k < 16
  {
    if i == 0 then 7 else if i == 1 then 9 else if i == 2 then 3 else if i == 3 then 1
    else if i == 4 then 13 else if i == 5 then 12 else if i == 6 then 11 else if i == 7 then 14
    else if i == 8 then 2 else if i == 9 then 6 else if i == 10 then 5 else if i == 11 then 10
    else if i == 12 then 4 else if i == 13 then 0 else if i == 14 then 15 else 8
  }

  function Row4(i: nat): (k: nat)
    ensures k < 16
  {
    if i == 0 then 9 else if i == 1 then 0 else if i == 2 then 5 else if i == 3 then 7
    else if i == 4 then 2 else if i == 5 then 4 else if i == 6 then 10 else if i == 7 then 15
    else if i == 8 then 14 else if i == 9 then 1 else if i == 10 then 11 else if i == 11 then 12
    else if i == 12 then 6 else if i == 13 then 8 else if i == 14 then 3 else 13
  }

  function Row5(i: nat): (k: nat)
    ensures k < 16
  {
    if i == 0 then 2 else if i == 1 then 12 else if i == 2 then 6 else if i == 3 then 10
    else if i == 4 then 0 else if i == 5 then 11 else if i == 6 then 8 else if i == 7 then 3
    else if i == 8 then 4 else if i == 9 then 13 else if i == 10 then 7 else if i == 11 then 5
    else if i == 12 then 15 else if i == 13 then 14 else if i == 14 then 1 else 9
  }

  function Row6(i: nat): (k: nat)
    ensures k < 16
  {
    if i == 0 then 12 else if i == 1 then 5 else if i == 2 then 1 else if i == 3 then 15
    else if i == 4 then 14 else if i == 5 then 13 else if i == 6 then 4 else if i == 7 then 10
    else if i == 8 then 0 else if i == 9 then 7 else if i == 10 then 6 else if i == 11 then 3
    else if i == 12 then 9 else if i == 13 then 2 else if i == 14 then 8 else 11
  }

  function Row7(i: nat): (k: nat)
    ensures k < 16
  {
    if i == 0 then 13 else if i == 1 then 11 else if i == 2 then 7 else if i == 3 then 14
    else if i == 4 then 12 else if i == 5 then 1 else if i == 6 then 3 else if i == 7 then 9
    else if i == 8 then 5 else if i == 9 then 0 else if i == 10 then 15 else if i == 11 then 4
    else if i == 12 then 8 else if i == 13 then 6 else if i == 14 then 2 else 10
  }

  function Row8(i: nat): (k: nat)
    ensures k < 16
  {
    if i == 0 then 6 else if i == 1 then 15 else if i == 2 then 14 else if i == 3 then 9
    else if i == 4 then 11 else if i == 5 then 3 else if i == 6 then 0 else if i == 7 then 8
    else if i == 8 then 12 else if i == 9 then 2 else if i == 10 then 13 else if i == 11 then 7
    else if i == 12 then 1 else if i == 13 then 4 else if i == 14 then 10 else 5
  }

  function Row9(i: nat): (k: nat)
    ensures k < 16
  {
    if i == 0 then 10 else if i == 1 then 2 else if i == 2 then 8 else if i == 3 then 4
    else if i == 4 then 7 else if i == 5 then 6 else if i == 6 then 1 else if i == 7 then 5
    else if i == 8 then 15 else if i == 9 then 11 else if i == 10 then 9 else if i == 11 then 14
    else if i == 12 then 3 else if i == 13 then 12 else if i == 14 then 13 else 0
  }

  /** Which message word stands in place i of round r; rounds 10 and 11 repeat rows 0 and 1. */
  function Sigma(r: nat, i: nat): (k: nat)
    ensures k < 16
  {
    if r == 0 || r == 10 then Row0(i) else if r == 1 || r == 11 then Row1(i)
    else if r == 2 then Row2(i) else if r == 3 then Row3(i) else if r == 4 then Row4(i)
    else if r == 5 then Row5(i) else if r == 6 then Row6(i) else if r == 7 then Row7(i)
    else if r == 8 then Row8(i) else Row9(i)
  }

  // Where each message word is used.

  function Place0(i: nat): (k: nat)
    ensures k < 16
  {
    if i == 0 then 0 else if i == 1 then 1 else if i == 2 then 2 else if i == 3 then 3
    else if i == 4 then 4 else if i == 5 then 5 else if i == 6 then 6 else if i == 7 then 7
    else if i == 8 then 8 else if i == 9 then 9 else if i == 10 then 10 else if i == 11 then 11
    else if i == 12 then 12 else if i == 13 then 13 else if i == 14 then 14 else 15
  }

  function Place1(i: nat): (k: nat)
    ensures k < 16
  {
    if i == 0 then 10 else if i == 1 then 8 else if i == 2 then 11 else if i == 3 then 15
    else if i == 4 then 2 else if i == 5 then 14 else if i == 6 then 7 else if i == 7 then 13
    else if i == 8 then 3 else if i == 9 then 4 else if i == 10 then 1 else if i == 11 then 12
    else if i == 12 then 9 else if i == 13 then 6 else if i == 14 then 0 else 5
  }

  function Place2(i: nat): (k: nat)
    ensures k < 16
  {
    if i == 0 then 3 else if i == 1 then 13 else if i == 2 then 5 else if i == 3 then 10
    else if i == 4 then 15 else if i == 5 then 4 else if i == 6 then 11 else if i == 7 then 12
    else if i == 8 then 1 else if i == 9 then 14 else if i == 10 then 8 else if i == 11 then 0
    else if i == 12 then 2 else if i == 13 then 7 else if i == 14 then 9 else 6
  }

  function Place3(i: nat): (k: nat)
    ensures k < 16
  {
    if i == 0 then 13 else if i == 1 then 3 else if i == 2 then 8 else if i == 3 then 2
    else if i == 4 then 12 else if i == 5 then 10 else if i == 6 then 9 else if i == 7 then 0
    else if i == 8 then 15 else if i == 9 then 1 else if i == 10 then 11 else if i == 11 then 6
    else if i == 12 then 5 else if i == 13 then 4 else if i == 14 then 7 else 14
  }

  function Place4(i: nat): (k: nat)
    ensures k < 16
  {
    if i == 0 then 1 else if i == 1 then 9 else if i == 2 then 4 else if i == 3 then 14
    else if i == 4 then 5 else if i == 5 then 2 else if i == 6 then 12 else if i == 7 then 3
    else if i == 8 then 13 else if i == 9 then 0 else if i == 10 then 6 else if i == 11 then 10
    else if i == 12 then 11 else if i == 13 then 15 else if i == 14 then 8 else 7
  }

  function Place5(i: nat): (k: nat)
    ensures k < 16
  {
    if i == 0 then 4 else if i == 1 then 14 else if i == 2 then 0 else if i == 3 then 7
    else if i == 4 then 8 else if i == 5 then 11 else if i == 6 then 2 else if i == 7 then 10
    else if i == 8 then 6 else if i == 9 then 15 else if i == 10 then 3 else if i == 11 then 5
    else if i == 12 then 1 else if i == 13 then 9 else if i == 14 then 13 else 12
  }

  function Place6(i: nat): (k: nat)
    ensures k < 16
  {
    if i == 0 then 8 else if i == 1 then 2 else if i == 2 then 13 else if i == 3 then 11
    else if i == 4 then 6 else if i == 5 then 1 else if i == 6 then 10 else if i == 7 then 9
    else if i == 8 then 14 else if i == 9 then 12 else if i == 10 then 7 else if i == 11 then 15
    else if i == 12 then 0 else if i == 13 then 5 else if i == 14 then 4 else 3
  }

  function Place7(i: nat): (k: nat)
    ensures k < 16
  {
    if i == 0 then 9 else if i == 1 then 5 else if i == 2 then 14 else if i == 3 then 6
    else if i == 4 then 11 else if i == 5 then 8 else if i == 6 then 13 else if i == 7 then 2
    else if i == 8 then 12 else if i == 9 then 7 else if i == 10 then 15 else if i == 11 then 1
    else if i == 12 then 4 else if i == 13 then 0 else if i == 14 then 3 else 10
  }

  function Place8(i: nat): (k: nat)
    ensures k < 16
  {
    if i == 0 then 6 else if i == 1 then 12 else if i == 2 then 9 else if i == 3 then 5
    else if i == 4 then 13 else if i == 5 then 15 else if i == 6 then 0 else if i == 7 then 11
    else if i == 8 then 7 else if i == 9 then 3 else if i == 10 then 14 else if i == 11 then 4
    else if i == 12 then 8 else if i == 13 then 10 else if i == 14 then 2 else 1
  }

  function Place9(i: nat): (k: nat)
    ensures k < 16
  {
    if i == 0 then 15 else if i == 1 then 6 else if i == 2 then 1 else if i == 3 then 12
    else if i == 4 then 3 else if i == 5 then 7 else if i == 6 then 5 else if i == 7 then 4
    else if i == 8 then 2 else if i == 9 then 10 else if i == 10 then 0 else if i == 11 then 9
    else if i == 12 then 13 else if i == 13 then 14 else if i == 14 then 11 else 8
  }

  function PlaceOf(r: nat, i: nat): (k: nat)
    ensures k < 16
  {
    if r == 0 || r == 10 then Place0(i) else if r == 1 || r == 11 then Place1(i)
    else if r == 2 then Place2(i) else if r == 3 then Place3(i) else if r == 4 then Place4(i)
    else if r == 5 then Place5(i) else if r == 6 then Place6(i) else if r == 7 then Place7(i)
    else if r == 8 then Place8(i) else Place9(i)
  }

  lemma RowPermutes0(i: nat)
    requires i < 16
    ensures Place0(Row0(i)) == i && Row0(Place0(i)) == i
  {}

  lemma RowPermutes1(i: nat)
    requires i < 16
    ensures Place1(Row1(i)) == i && Row1(Place1(i)) == i
  {}

  lemma RowPermutes2(i: nat)
    requires i < 16
    ensures Place2(Row2(i)) == i && Row2(Place2(i)) == i
  {}

  lemma RowPermutes3(i: nat)
    requires i < 16
    ensures Place3(Row3(i)) == i && Row3(Place3(i)) == i
  {}

  lemma RowPermutes4(i: nat)
    requires i < 16
    ensures Place4(Row4(i)) == i && Row4(Place4(i)) == i
  {}

  lemma RowPermutes5(i: nat)
    requires i < 16
    ensures Place5(Row5(i)) == i && Row5(Place5(i)) == i
  {}

  lemma RowPermutes6(i: nat)
    requires i < 16
    ensures Place6(Row6(i)) == i && Row6(Place6(i)) == i
  {}

  lemma RowPermutes7(i: nat)
    requires i < 16
    ensures Place7(Row7(i)) == i && Row7(Place7(i)) == i
  {}

  lemma RowPermutes8(i: nat)
    requires i < 16
    ensures Place8(Row8(i)) == i && Row8(Place8(i)) == i
  {}

  lemma RowPermutes9(i: nat)
    requires i < 16
    ensures Place9(Row9(i)) == i && Row9(Place9(i)) == i
  {}

  /** Each round uses each message word exactly once. */
  lemma EachWordOnce(r: nat, i: nat)
    requires r < 12 && i < 16
    ensures PlaceOf(r, Sigma(r, i)) == i && Sigma(r, PlaceOf(r, i)) == i
  {
    hide Row0, Place0, Row1, Place1, Row2, Place2, Row3, Place3, Row4, Place4, Row5, Place5, Row6, Place6, Row7, Place7,
         Row8, Place8, Row9, Place9;
    RowPermutes0(i);
    RowPermutes1(i);
    RowPermutes2(i);
    RowPermutes3(i);
    RowPermutes4(i);
    RowPermutes5(i);
    RowPermutes6(i);
    RowPermutes7(i);
    RowPermutes8(i);
    RowPermutes9(i);
  }

  // ---- the steps of the twelve rounds -----------------------------------------------------------------------

  /** The four lanes of step j: the columns for j < 4, then the diagonals. */
  function LaneB(j: nat): nat { 4 + (if j < 4 then j else (j + 1) % 4) }
  function LaneC(j: nat): nat { 8 + (if j < 4 then j else (j + 2) % 4) }
  function LaneD(j: nat): nat { 12 + (if j < 4 then j else (j + 3) % 4) }

  function Take(v: seq<Lane>, j: nat): Quad
    requires |v| == 16 && j < 8
  { Quad(v[j % 4], v[LaneB(j)], v[LaneC(j)], v[LaneD(j)]) }

  function Put(v: seq<Lane>, j: nat, q: Quad): (r: seq<Lane>)
    requires |v| == 16 && j < 8
    ensures |r| == 16
  { v[j % 4 := q.a][LaneB(j) := q.b][LaneC(j) := q.c][LaneD(j) := q.d] }

  lemma PutTake(v: seq<Lane>, j: nat, q: Quad, q': Quad)
    requires |v| == 16 && j < 8
    ensures Take(Put(v, j, q), j) == q && Put(v, j, Take(v, j)) == v && Put(Put(v, j, q), j, q') == Put(v, j, q')
  {
    assert j % 4 < 4 <= LaneB(j) < 8 <= LaneC(j) < 12 <= LaneD(j) < 16;
    hide LaneB, LaneC, LaneD;
  }

  function StepAt(v: seq<Lane>, j: nat, x: Lane, y: Lane): (r: seq<Lane>)
    requires |v| == 16 && j < 8
    ensures |r| == 16
  { Put(v, j, G(Take(v, j), x, y)) }

  function UnstepAt(v: seq<Lane>, j: nat, x: Lane, y: Lane): (r: seq<Lane>)
    requires |v| == 16 && j < 8
    ensures |r| == 16
  { Put(v, j, InverseG(Take(v, j), x, y)) }

  lemma StepInverts(v: seq<Lane>, j: nat, x: Lane, y: Lane)
    requires |v| == 16 && j < 8
    ensures UnstepAt(StepAt(v, j, x, y), j, x, y) == v && StepAt(UnstepAt(v, j, x, y), j, x, y) == v
  {
    hide G, InverseG, Take, Put;
    var q := Take(v, j);
    GInverts(q, x, y);
    PutTake(v, j, G(q, x, y), q);
    PutTake(v, j, InverseG(q, x, y), q);
  }

  const STEPS: nat := 96

  /** The first message word of step n of a compression. */
  function WordX(m: seq<Lane>, n: nat): Lane
    requires |m| == 16
  { m[Sigma(n / 8, 2 * (n % 8))] }

  function WordY(m: seq<Lane>, n: nat): Lane
    requires |m| == 16
  { m[Sigma(n / 8, 2 * (n % 8) + 1)] }

  /** The state after the first n of the 96 steps. */
  function Steps(v: seq<Lane>, m: seq<Lane>, n: nat): (r: seq<Lane>)
    requires |v| == 16 && |m| == 16
    ensures |r| == 16
  { if n == 0 then v else StepAt(Steps(v, m, n - 1), (n - 1) % 8, WordX(m, n - 1), WordY(m, n - 1)) }

  /** The inverse steps in reverse order. */
  function Unsteps(v: seq<Lane>, m: seq<Lane>, n: nat): (r: seq<Lane>)
    requires |v| == 16 && |m| == 16
    ensures |r| == 16
    decreases n
  { if n == 0 then v else Unsteps(UnstepAt(v, (n - 1) % 8, WordX(m, n - 1), WordY(m, n - 1)), m, n - 1) }

  /** For each message block the mixing permutes the states. */
  lemma {:induction false} MixingPermutes(v: seq<Lane>, m: seq<Lane>, n: nat)
    requires |v| == 16 && |m| == 16
    ensures Unsteps(Steps(v, m, n), m, n) == v && Steps(Unsteps(v, m, n), m, n) == v
    decreases n
  {
    hide StepAt, UnstepAt, WordX, WordY;
    if n > 0 {
      MixingPermutes(v, m, n - 1);
      StepInverts(Steps(v, m, n - 1), (n - 1) % 8, WordX(m, n - 1), WordY(m, n - 1));
      var u := UnstepAt(v, (n - 1) % 8, WordX(m, n - 1), WordY(m, n - 1));
      StepInverts(v, (n - 1) % 8, WordX(m, n - 1), WordY(m, n - 1));
      MixingPermutes(u, m, n - 1);
    }
  }
}
