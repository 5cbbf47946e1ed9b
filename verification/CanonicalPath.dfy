/** What the path id of the canonical program says about the memory. */
module CanonicalPath {
  import opened ByteStrings
  import opened Crypto
  import opened Isa
  import opened Assembler
  import opened CanonicalProgram
  import opened CanonicalSpec
  import opened CanonicalResult

  // ---- one fold ---------------------------------------------------------------------------------------------

  /** 0x359C449B is the inverse of 0x01000193 modulo 2^32. */
  function UnfoldBits(path: bv32, site: bv32, taken: bool): bv32 {
    (path ^ site ^ Decision(taken)) * 0x359C449B
  }

  lemma Refolded(x: bv32, site: bv32, taken: bool)
    ensures FoldBits(x, site, taken) == (x * 0x01000193) ^ site ^ Decision(taken)
    ensures UnfoldBits((x * 0x01000193) ^ site ^ Decision(taken), site, taken) == x
  {
    hide Decision;
  }

  lemma Unfolded(x: bv32, site: bv32, taken: bool)
    ensures UnfoldBits(x, site, taken) == (x ^ site ^ Decision(taken)) * 0x359C449B
    ensures FoldBits((x ^ site ^ Decision(taken)) * 0x359C449B, site, taken) == x
  {
    hide Decision;
  }

  /** For each branch and decision the fold permutes the 32-bit values. */
  lemma FoldPermutes(x: bv32, site: bv32, taken: bool)
    ensures UnfoldBits(FoldBits(x, site, taken), site, taken) == x
    ensures FoldBits(UnfoldBits(x, site, taken), site, taken) == x
  {
    hide FoldBits, UnfoldBits, Decision;
    Refolded(x, site, taken);
    Unfolded(x, site, taken);
  }

  lemma Decisions()
    ensures Decision(true) == 1 && Decision(false) == 0
  {}

  lemma DecisionsDiffer(x: bv32, site: bv32)
    ensures FoldBits(x, site, true) != FoldBits(x, site, false)
  {
    Decisions();
    hide Decision;
    assert ((x * 0x01000193) ^ site ^ 1) ^ ((x * 0x01000193) ^ site ^ 0) == 1;
  }

  lemma FoldPathInjective(a: Path, b: Path, address: nat, taken: bool)
    requires FoldPath(a, address, taken) == FoldPath(b, address, taken)
    ensures a == b
  {
    hide FoldBits, UnfoldBits;
    var site := Site(address);
    FoldPermutes(a.v, site, taken);
    FoldPermutes(b.v, site, taken);
  }

  lemma DecisionShows(a: Path, address: nat)
    ensures FoldPath(a, address, true) != FoldPath(a, address, false)
  {
    hide FoldBits;
    DecisionsDiffer(a.v, Site(address));
  }

  // ---- the path of a whole run ------------------------------------------------------------------------------

  /** Which of the first 22 words are even; the low bits and nothing else. */
  function Parities(mem: seq<Cell>): (r: seq<bool>)
    requires |mem| == VM_MEM_WORDS
    ensures |r| == 22
  { seq(22, i requires 0 <= i < 22 => Even(mem[i])) }

  /** The path after the loop has seen the first k decisions. */
  function LoopPath(evens: seq<bool>, k: nat): Path
    requires k <= |evens|
  { if k == 0 then Start().path else FoldPath(FoldPath(LoopPath(evens, k - 1), 86, false), 109, evens[k - 1]) }

  /** The loop's exit and the inner loop's three tests. */
  function ExitPath(x: Path): Path {
    FoldPath(FoldPath(FoldPath(FoldPath(x, 86, true), 223, true), 223, true), 223, false)
  }

  lemma {:induction false} LoopPathIs(mem: seq<Cell>, k: nat)
    requires |mem| == VM_MEM_WORDS && k <= 22
    ensures Folded(mem, k).path == LoopPath(Parities(mem), k)
  {
    hide FoldPath, Even, HashCells, MixCells, ShiftOp, AluOp, Start;
    if k > 0 { LoopPathIs(mem, k - 1); }
  }

  /** The path id is a function of the 22 low bits. */
  lemma PathOfParities(mem: seq<Cell>)
    requires |mem| == VM_MEM_WORDS
    ensures Output(mem).path == ExitPath(LoopPath(Parities(mem), 22))
  {
    hide FoldPath, Even, HashCells, MixCells, ShiftOp, AluOp, Complement, Folded, LoopPath;
    LoopPathIs(mem, 22);
  }

  /** Decisions that differ in place i alone lead to different paths from there on. */
  lemma {:induction false} OneDecision(e: seq<bool>, f: seq<bool>, i: nat, k: nat)
    requires |e| == |f| && i < |e| && e[i] != f[i] && k <= |e|
    requires forall j :: 0 <= j < |e| && j != i ==> e[j] == f[j]
    ensures LoopPath(e, k) == LoopPath(f, k) <==> k <= i
  {
    hide FoldPath, Start;
    if k > 0 {
      OneDecision(e, f, i, k - 1);
      var a, b := LoopPath(e, k - 1), LoopPath(f, k - 1);
      if k - 1 == i {
        DecisionShows(FoldPath(a, 86, false), 109);
      } else if FoldPath(FoldPath(a, 86, false), 109, e[k - 1]) == FoldPath(FoldPath(b, 86, false), 109, e[k - 1]) {
        FoldPathInjective(FoldPath(a, 86, false), FoldPath(b, 86, false), 109, e[k - 1]);
        FoldPathInjective(a, b, 86, false);
      }
    }
  }

  lemma ExitInjective(a: Path, b: Path)
    requires ExitPath(a) == ExitPath(b)
    ensures a == b
  {
    hide FoldPath;
    var a1, b1 := FoldPath(a, 86, true), FoldPath(b, 86, true);
    var a2, b2 := FoldPath(a1, 223, true), FoldPath(b1, 223, true);
    FoldPathInjective(FoldPath(a2, 223, true), FoldPath(b2, 223, true), 223, false);
    FoldPathInjective(a2, b2, 223, true);
    FoldPathInjective(a1, b1, 223, true);
    FoldPathInjective(a, b, 86, true);
  }

  /** The words whose low bits differ are exactly word i. */
  predicate DifferAt(mem: seq<Cell>, mem': seq<Cell>, i: nat)
    requires |mem| == |mem'| == VM_MEM_WORDS && i < 22
  {
    && Parities(mem)[i] != Parities(mem')[i]
    && forall j :: 0 <= j < 22 && j != i ==> Parities(mem)[j] == Parities(mem')[j]
  }

  lemma PathsDiffer(mem: seq<Cell>, mem': seq<Cell>, i: nat)
    requires |mem| == |mem'| == VM_MEM_WORDS && i < 22 && DifferAt(mem, mem', i)
    ensures Output(mem).path != Output(mem').path
  {
    hide Output, Parities, LoopPath, ExitPath;
    PathOfParities(mem);
    PathOfParities(mem');
    OneDecision(Parities(mem), Parities(mem'), i, 22);
    if Output(mem).path == Output(mem').path {
      ExitInjective(LoopPath(Parities(mem), 22), LoopPath(Parities(mem'), 22));
    }
  }

  /** Equal low bits give equal path ids; low bits that differ in exactly one word give different ones. */
  lemma PathIdSeesLowBits(p: Primitives, mem: seq<Cell>, mem': seq<Cell>, strict: bool)
    requires Lawful(p) && |mem| == |mem'| == VM_MEM_WORDS
    ensures Assembled(Program()).Some?
    ensures var code := Assembled(Program()).value;
            var r, r' := ResultOf(p, code, mem, strict), ResultOf(p, code, mem', strict);
            && r.Some? && r'.Some?
            && (Parities(mem) == Parities(mem') ==> r.value.pathId == r'.value.pathId)
            && (forall i :: 0 <= i < 22 && DifferAt(mem, mem', i) ==> r.value.pathId != r'.value.pathId)
  {
    hide ResultOf, Program, Assembled, CellsBytes, HaltCode, Parities, LoopPath, ExitPath, DifferAt, Output;
    CanonicalResultIs(p, mem, strict);
    CanonicalResultIs(p, mem', strict);
    PathOfParities(mem);
    PathOfParities(mem');
    forall i | 0 <= i < 22 && DifferAt(mem, mem', i) ensures Output(mem).path != Output(mem').path {
      PathsDiffer(mem, mem', i);
    }
  }
}
