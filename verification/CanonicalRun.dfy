/** The canonical program run block by block, and what it leaves behind. */
module CanonicalRun {
  import opened Isa
  import opened CanonicalSpec
  import opened CanonicalItems

  /** The accumulators and the path. */
  predicate Carries(s: File, a: Acc) {
    s.r12 == a.r12 && s.r13 == a.r13 && s.r14 == a.r14 && s.r15 == a.r15 && s.path == a.path
  }

  /** The head of the loop with i == k. */
  predicate Looping(s: File, mem: seq<Cell>, k: nat, a: Acc) {
    && |mem| == VM_MEM_WORDS && s.mem == mem && k <= 22
    && Carries(s, a) && s.r0 == Idx(k)
    && (k > 0 ==> s.r7 == Idx(k - 1) && s.r2 == mem[k - 1])
  }

  // ---- the fold loop ----------------------------------------------------------------------------------------

  /** i is compared with the limit. */
  lemma LoopTest(s: File, mem: seq<Cell>, k: nat, a: Acc) returns (t: File)
    requires Looping(s, mem, k, a)
    ensures Leads(s, 8, false, 2, t, if k == 22 then 29 else 11, false)
    ensures t == s.(path := FoldPath(a.path, 86, k == 22), flags := t.flags)
  {
    hide Leads, Idx, CmpFlags, FoldPath, AluOp, MemIndex;
    Counting(k);
    CmpZero(Idx(k), Idx(22));
    Go9(s);
    var s1 := s.(flags := CmpFlags(s.r0, Idx(22)));
    Go10(s1);
    t := s1.(path := FoldPath(s1.path, 86, s1.flags.zf));
    Chain(s, 8, false, 1, s1, 10, false, 1, t, if k == 22 then 29 else 11, false);
  }

  /** The word is loaded. */
  lemma LoopLoad(s: File, mem: seq<Cell>, k: nat) returns (t: File)
    requires |mem| == VM_MEM_WORDS && s.mem == mem && k < 22 && s.r0 == Idx(k)
    ensures Leads(s, 11, false, 2, t, 13, false)
    ensures t == s.(r7 := Idx(k), r2 := mem[k])
  {
    hide Leads, Idx, AluOp, MemIndex;
    Counting(k);
    Go11(s);
    var s1 := s.(r7 := s.r0);
    Go12(s1);
    t := s1.(r2 := s1.mem[MemIndex(s1.r7)]);
    Chain(s, 11, false, 1, s1, 12, false, 1, t, 13, false);
  }

  /** The word is hashed into R12 and mixed into R13. */
  lemma LoopMix(s: File) returns (t: File)
    requires |s.mem| == VM_MEM_WORDS
    ensures Leads(s, 13, false, 2, t, 15, false)
    ensures t == s.(r12 := HashCells(s.r12, s.r2), r13 := MixCells(s.r13, s.r2, 13))
  {
    hide Leads, HashCells, MixCells;
    Go13(s);
    var s1 := s.(r12 := HashCells(s.r12, s.r2));
    Go14(s1);
    t := s1.(r13 := MixCells(s1.r13, s1.r2, 13));
    Chain(s, 13, false, 1, s1, 14, false, 1, t, 15, false);
  }

  /** The branch on the parity of the word. */
  lemma LoopBranch(s: File) returns (t: File)
    requires |s.mem| == VM_MEM_WORDS
    ensures Leads(s, 15, false, 3, t, if Even(s.r2) then 21 else 18, false)
    ensures t == s.(path := FoldPath(s.path, 109, Even(s.r2)), r3 := t.r3, flags := t.flags)
  {
    hide Leads, AluOp, FoldPath, CmpFlags;
    Go15(s);
    var s1 := s.(r3 := AluOp(AND, s.r2, ONE));
    CmpZero(s1.r3, ZERO);
    Go16(s1);
    var s2 := s1.(flags := CmpFlags(s1.r3, ZERO));
    Go17(s2);
    t := s2.(path := FoldPath(s2.path, 109, s2.flags.zf));
    Chain(s, 15, false, 1, s1, 16, false, 1, s2, 17, false);
    Chain(s, 15, false, 2, s2, 17, false, 1, t, if Even(s.r2) then 21 else 18, false);
  }

  lemma LoopOdd(s: File) returns (t: File)
    requires |s.mem| == VM_MEM_WORDS
    ensures Leads(s, 18, false, 3, t, 24, false)
    ensures t == s.(r15 := ShiftOp(ROL, HashCells(s.r15, s.r2), 7))
  {
    hide Leads, HashCells, ShiftOp;
    Go18(s);
    var s1 := s.(r15 := HashCells(s.r15, s.r2));
    Go19(s1);
    t := s1.(r15 := ShiftOp(ROL, s1.r15, 7));
    Go20(t);
    Chain(s, 18, false, 1, s1, 19, false, 1, t, 20, false);
    Chain(s, 18, false, 2, t, 20, false, 1, t, 24, false);
  }

  lemma LoopEven(s: File) returns (t: File)
    requires |s.mem| == VM_MEM_WORDS
    ensures Leads(s, 21, false, 2, t, 24, false)
    ensures t == s.(r14 := ShiftOp(ROR, HashCells(s.r14, s.r2), 11))
  {
    hide Leads, HashCells, ShiftOp;
    Go22(s);
    var s1 := s.(r14 := HashCells(s.r14, s.r2));
    Go23(s1);
    t := s1.(r14 := ShiftOp(ROR, s1.r14, 11));
    Chain(s, 21, false, 1, s1, 23, false, 1, t, 24, false);
  }

  /** The accumulators are crossed and i advances. */
  lemma LoopTail(s: File) returns (t: File)
    requires |s.mem| == VM_MEM_WORDS
    ensures Leads(s, 24, false, 4, t, 8, false)
    ensures t == s.(r12 := AluOp(XOR, s.r12, s.r14), r13 := AluOp(ADD, s.r13, s.r15), r0 := AluOp(ADD, s.r0, ONE))
  {
    hide Leads, AluOp;
    Go25(s);
    var s1 := s.(r12 := AluOp(XOR, s.r12, s.r14));
    Go26(s1);
    var s2 := s1.(r13 := AluOp(ADD, s1.r13, s1.r15));
    Go27(s2);
    t := s2.(r0 := AluOp(ADD, s2.r0, ONE));
    Go28(t);
    Chain(s, 24, false, 1, s1, 26, false, 1, s2, 27, false);
    Chain(s, 24, false, 2, s2, 27, false, 1, t, 28, false);
    Chain(s, 24, false, 3, t, 28, false, 1, t, 8, false);
  }

  /** From the loaded word to the next turn of the loop. */
  lemma LoopBody(s: File) returns (t: File)
    requires |s.mem| == VM_MEM_WORDS
    ensures Leads(s, 13, false, if Even(s.r2) then 11 else 12, t, 8, false)
    ensures t.mem == s.mem && t.r7 == s.r7 && t.r2 == s.r2 && t.r0 == AluOp(ADD, s.r0, ONE)
    ensures forall a: Acc :: Carries(s, a.(path := FoldPath(a.path, 86, false))) ==> Carries(t, Absorb(a, s.r2))
  {
    hide Leads, AluOp, HashCells, MixCells, ShiftOp, FoldPath, Even;
    var s1 := LoopMix(s);
    var s2 := LoopBranch(s1);
    Chain(s, 13, false, 2, s1, 15, false, 3, s2, if Even(s.r2) then 21 else 18, false);
    if Even(s.r2) {
      var s3 := LoopEven(s2);
      t := LoopTail(s3);
      Chain(s, 13, false, 5, s2, 21, false, 2, s3, 24, false);
      Chain(s, 13, false, 7, s3, 24, false, 4, t, 8, false);
    } else {
      var s3 := LoopOdd(s2);
      t := LoopTail(s3);
      Chain(s, 13, false, 5, s2, 18, false, 3, s3, 24, false);
      Chain(s, 13, false, 8, s3, 24, false, 4, t, 8, false);
    }
  }

  /** One turn of the loop absorbs one word. */
  lemma LoopTurn(s: File, mem: seq<Cell>, k: nat, a: Acc) returns (t: File)
    requires Looping(s, mem, k, a) && k < 22
    ensures Leads(s, 8, false, if Even(mem[k]) then 15 else 16, t, 8, false)
    ensures Looping(t, mem, k + 1, Absorb(a, mem[k]))
  {
    hide Leads, AluOp, FoldPath, Even, Absorb, Idx, MemIndex;
    var s1 := LoopTest(s, mem, k, a);
    var s2 := LoopLoad(s1, mem, k);
    t := LoopBody(s2);
    Counting(k);
    Chain(s, 8, false, 2, s1, 11, false, 2, s2, 13, false);
    Chain(s, 8, false, 4, s2, 13, false, if Even(mem[k]) then 11 else 12, t, 8, false);
    assert Carries(s2, a.(path := FoldPath(a.path, 86, false)));
  }

  /** k turns of the loop. */
  lemma {:induction false} Loop(s: File, mem: seq<Cell>, k: nat) returns (t: File)
    requires Looping(s, mem, 0, Start()) && k <= 22
    ensures Leads(s, 8, false, 15 * k + OddWords(mem, k), t, 8, false)
    ensures Looping(t, mem, k, Folded(mem, k))
  {
    hide Leads, Even, Absorb, Idx;
    if k == 0 {
      t := s;
      NoTurn(s, 8, false);
    } else {
      var u := Loop(s, mem, k - 1);
      t := LoopTurn(u, mem, k - 1, Folded(mem, k - 1));
      Chain(s, 8, false, 15 * (k - 1) + OddWords(mem, k - 1), u, 8, false, if Even(mem[k - 1]) then 15 else 16, t, 8,
            false);
    }
  }

  // ---- avalanche and subroutine -----------------------------------------------------------------------------

  /** The loop is left and the subroutine called. */
  lemma RunAvalanche(s: File, mem: seq<Cell>, a: Acc) returns (t: File)
    requires Looping(s, mem, 22, a)
    ensures Leads(s, 8, false, 7, t, 36, true)
    ensures t.mem == mem && t.r7 == Idx(21) && t.r2 == mem[21] && Carries(t, Avalanche(a))
  {
    hide Leads, HashCells, FoldPath, Idx;
    var s1 := LoopTest(s, mem, 22, a);
    Go30(s1);
    var s2 := s1.(r12 := HashCells(s1.r12, s1.r13));
    Go31(s2);
    var s3 := s2.(r13 := HashCells(s2.r13, s2.r14));
    Go32(s3);
    var s4 := s3.(r14 := HashCells(s3.r14, s3.r15));
    Go33(s4);
    t := s4.(r15 := HashCells(s4.r15, s4.r12));
    Go34(t);
    Chain(s, 8, false, 2, s1, 29, false, 1, s2, 31, false);
    Chain(s, 8, false, 3, s2, 31, false, 1, s3, 32, false);
    Chain(s, 8, false, 4, s3, 32, false, 1, s4, 33, false);
    Chain(s, 8, false, 5, s4, 33, false, 1, t, 34, false);
    Chain(s, 8, false, 6, t, 34, false, 1, t, 36, true);
  }

  /** The inner loop's head: R0 counts down, R3 keeps the complement of R12. */
  predicate InSubroutine(s: File, mem: seq<Cell>, a: Acc, c: Scratch, k: nat) {
    && |mem| == VM_MEM_WORDS && s.mem == mem && k <= 22
    && Carries(s, a.(path := c.path)) && s.r7 == Idx(21) && s.r0 == Idx(k)
    && s.r2 == mem[21] && s.r3 == Complement(a.r12) && s.r4 == c.r4 && s.r5 == c.r5 && s.r9 == c.r9
    && s.r10 == ShiftOp(SHL, Joined(a), 3) && s.r11 == ShiftOp(SHR, Joined(a), 5)
  }

  lemma PrepareFirst(s: File) returns (t: File)
    requires |s.mem| == VM_MEM_WORDS
    ensures Leads(s, 36, true, 5, t, 42, true)
    ensures var n, d := Complement(s.r12), AluOp(SUB, s.r14, s.r15);
            t == s.(r3 := n, r4 := AluOp(OR, s.r13, n), r5 := d, r9 := AluOp(MUL, d, ONE))
  {
    hide Leads, AluOp, Complement;
    Go37(s);
    Go38(s);
    var s1 := s.(r3 := Complement(s.r12));
    Go39(s1);
    var s2 := s1.(r4 := AluOp(OR, s1.r13, s1.r3));
    Go40(s2);
    var s3 := s2.(r5 := AluOp(SUB, s2.r14, s2.r15));
    Go41(s3);
    t := s3.(r9 := AluOp(MUL, s3.r5, ONE));
    Chain(s, 36, true, 1, s, 38, true, 1, s1, 39, true);
    Chain(s, 36, true, 2, s1, 39, true, 1, s2, 40, true);
    Chain(s, 36, true, 3, s2, 40, true, 1, s3, 41, true);
    Chain(s, 36, true, 4, s3, 41, true, 1, t, 42, true);
  }

  lemma PrepareSecond(s: File) returns (t: File)
    requires |s.mem| == VM_MEM_WORDS
    ensures Leads(s, 42, true, 4, t, 46, true)
    ensures var up, down := ShiftOp(SHL, s.r4, 3), ShiftOp(SHR, s.r4, 5);
            t == s.(r10 := up, r11 := down, r0 := Idx(3), r4 := AluOp(XOR, up, down))
  {
    hide Leads, AluOp, ShiftOp, Idx;
    Go42(s);
    var s1 := s.(r10 := ShiftOp(SHL, s.r4, 3));
    Go43(s1);
    var s2 := s1.(r11 := ShiftOp(SHR, s1.r4, 5));
    Go44(s2);
    var s3 := s2.(r4 := AluOp(XOR, s2.r10, s2.r11));
    Go45(s3);
    t := s3.(r0 := Idx(3));
    Chain(s, 42, true, 1, s1, 43, true, 1, s2, 44, true);
    Chain(s, 42, true, 2, s2, 44, true, 1, s3, 45, true);
    Chain(s, 42, true, 3, s3, 45, true, 1, t, 46, true);
  }

  lemma RunPrepare(s: File, mem: seq<Cell>, a: Acc) returns (t: File)
    requires |mem| == VM_MEM_WORDS && s.mem == mem && s.r7 == Idx(21) && s.r2 == mem[21] && Carries(s, a)
    ensures Leads(s, 36, true, 9, t, 46, true)
    ensures InSubroutine(t, mem, a, Prepare(a), 3)
  {
    hide Leads, AluOp, ShiftOp, Complement, Idx;
    var s1 := PrepareFirst(s);
    t := PrepareSecond(s1);
    Chain(s, 36, true, 5, s1, 42, true, 4, t, 46, true);
  }

  lemma RoundFirst(s: File) returns (t: File)
    requires |s.mem| == VM_MEM_WORDS
    ensures Leads(s, 46, true, 3, t, 50, true)
    ensures var h := HashCells(s.r9, s.r4);
            t == s.(r9 := h, r5 := if h == ZERO then s.r5 else h, flags := t.flags)
  {
    hide Leads, HashCells, CmpFlags;
    Go47(s);
    var s1 := s.(r9 := HashCells(s.r9, s.r4));
    CmpZero(s1.r9, ZERO);
    Go48(s1);
    var s2 := s1.(flags := CmpFlags(s1.r9, ZERO));
    Go49(s2);
    t := s2.(r5 := if s2.flags.zf then s2.r5 else s2.r9);
    Chain(s, 46, true, 1, s1, 48, true, 1, s2, 49, true);
    Chain(s, 46, true, 2, s2, 49, true, 1, t, 50, true);
  }

  lemma RoundSecond(s: File, k: nat) returns (t: File)
    requires |s.mem| == VM_MEM_WORDS && 1 <= k <= 3 && s.r0 == Idx(k)
    ensures Leads(s, 50, true, 3, t, if k > 1 then 46 else 53, true)
    ensures t == s.(r0 := Idx(k - 1), path := FoldPath(s.path, 223, k > 1), flags := t.flags)
    ensures k == 1 ==> t.flags == Flags(true, false, false)
  {
    hide Leads, AluOp, CmpFlags, FoldPath, Idx;
    CountingDown();
    Go50(s);
    var s1 := s.(r0 := AluOp(SUB, s.r0, ONE));
    CmpZero(s1.r0, ZERO);
    Go51(s1);
    var s2 := s1.(flags := CmpFlags(s1.r0, ZERO));
    Go52(s2);
    t := s2.(path := FoldPath(s2.path, 223, !s2.flags.zf));
    Chain(s, 50, true, 1, s1, 51, true, 1, s2, 52, true);
    Chain(s, 50, true, 2, s2, 52, true, 1, t, if k > 1 then 46 else 53, true);
  }

  /** One turn of the inner loop. */
  lemma RunRound(s: File, mem: seq<Cell>, a: Acc, c: Scratch, k: nat) returns (t: File)
    requires InSubroutine(s, mem, a, c, k) && 1 <= k <= 3
    ensures Leads(s, 46, true, 6, t, if k > 1 then 46 else 53, true)
    ensures InSubroutine(t, mem, a, Round(c, k > 1), k - 1)
    ensures k == 1 ==> t.flags == Flags(true, false, false)
  {
    hide Leads, HashCells, FoldPath, Idx, Complement, ShiftOp, Joined;
    var s1 := RoundFirst(s);
    t := RoundSecond(s1, k);
    Chain(s, 46, true, 3, s1, 50, true, 3, t, if k > 1 then 46 else 53, true);
  }

  lemma RunRounds(s: File, mem: seq<Cell>, a: Acc) returns (t: File)
    requires InSubroutine(s, mem, a, Prepare(a), 3)
    ensures Leads(s, 46, true, 18, t, 53, true)
    ensures InSubroutine(t, mem, a, Rounds(a), 0) && t.flags == Flags(true, false, false)
  {
    hide Leads, InSubroutine, Prepare, Round;
    var s1 := RunRound(s, mem, a, Prepare(a), 3);
    var s2 := RunRound(s1, mem, a, Round(Prepare(a), true), 2);
    t := RunRound(s2, mem, a, Round(Round(Prepare(a), true), true), 1);
    Chain(s, 46, true, 6, s1, 46, true, 6, s2, 46, true);
    Chain(s, 46, true, 12, s2, 46, true, 6, t, 53, true);
  }

  /** Everything the subroutine leaves behind when it is entered with `a`. */
  function Returned(mem: seq<Cell>, a: Acc): File
    requires |mem| == VM_MEM_WORDS
  {
    var c, o := Rounds(a), Finalized(a);
    File(Idx(0), mem[21], Complement(a.r12), c.r4, c.r5, Idx(21), c.r9,
         ShiftOp(SHL, Joined(a), 3), ShiftOp(SHR, Joined(a), 5), o.r12, o.r13, o.r14, o.r15,
         mem[21 := c.r9], Flags(true, false, false), o.path)
  }

  /** The results are stored and the subroutine returns. */
  lemma RunReturn(s: File, mem: seq<Cell>, a: Acc) returns (t: File)
    requires InSubroutine(s, mem, a, Rounds(a), 0) && s.flags == Flags(true, false, false)
    ensures Leads(s, 53, true, 6, t, 35, false)
    ensures t == Returned(mem, a)
  {
    hide Leads, AluOp, MixCells, MemIndex, Idx, Rounds, ShiftOp, Joined, Complement;
    Counting(21);
    Go53(s);
    var s1 := s.(mem := s.mem[MemIndex(s.r7) := s.r9]);
    Go54(s1);
    var s2 := s1.(r12 := AluOp(XOR, s1.r12, s1.r9));
    Go55(s2);
    var s3 := s2.(r13 := AluOp(ADD, s2.r13, s2.r5));
    Go56(s3);
    var s4 := s3.(r14 := AluOp(XOR, s3.r14, s3.r4));
    Go57(s4);
    t := s4.(r15 := MixCells(s4.r15, s4.r3, 15));
    Go58(t);
    Chain(s, 53, true, 1, s1, 54, true, 1, s2, 55, true);
    Chain(s, 53, true, 2, s2, 55, true, 1, s3, 56, true);
    Chain(s, 53, true, 3, s3, 56, true, 1, s4, 57, true);
    Chain(s, 53, true, 4, s4, 57, true, 1, t, 58, true);
    Chain(s, 53, true, 5, t, 58, true, 1, t, 35, false);
  }

  /** All registers, the memory, the flags and the path at the HALT. */
  function Final(mem: seq<Cell>): File
    requires |mem| == VM_MEM_WORDS
  { Returned(mem, Avalanche(Folded(mem, 22))) }

  lemma FinalCarries(mem: seq<Cell>)
    requires |mem| == VM_MEM_WORDS
    ensures Carries(Final(mem), Output(mem)) && Final(mem).mem == mem[21 := StoredWord(mem)]
    ensures Final(mem).flags == Flags(true, false, false)
  {
    hide Folded, Avalanche, Rounds, AluOp, MixCells, Complement, ShiftOp, Joined;
  }

  /** From the loop's head to the HALT. */
  lemma RunToHalt(s: File, mem: seq<Cell>) returns (t: File)
    requires Looping(s, mem, 0, Start()) && |mem| == VM_MEM_WORDS
    ensures Leads(s, 8, false, 370 + OddWords(mem, 22), t, 35, false)
    ensures t == Final(mem)
  {
    hide Leads, Looping, InSubroutine, Returned, Idx, Folded, Start, Avalanche, Prepare, Rounds, OddWords;
    var s1 := Loop(s, mem, 22);
    var a := Folded(mem, 22);
    var s2 := RunAvalanche(s1, mem, a);
    var s3 := RunPrepare(s2, mem, Avalanche(a));
    var s4 := RunRounds(s3, mem, Avalanche(a));
    t := RunReturn(s4, mem, Avalanche(a));
    var n := 330 + OddWords(mem, 22);
    Chain(s, 8, false, n, s1, 8, false, 7, s2, 36, true);
    Chain(s, 8, false, n + 7, s2, 36, true, 9, s3, 46, true);
    Chain(s, 8, false, n + 16, s3, 46, true, 18, s4, 53, true);
    Chain(s, 8, false, n + 34, s4, 53, true, 6, t, 35, false);
  }
}
