/** Assembling preserves meaning: the bytes and the items run in lockstep. */
module Lockstep {
  import opened ByteStrings
  import opened Isa
  import opened Assembler
  import opened LabelMachine

  // ---- where the bytes of an item are -----------------------------------------------------------------------

  function BodyBytes(items: seq<Item>, k: nat): Bytes
    requires WellFormed(items) && k < |items| && items[k].Emit?
  {
    BodyMeans(items, k);
    Body(items[k].op, items[k].operands, LabelOffset(items, |items|)).value
  }

  lemma {:induction false} OffsetsGrow(items: seq<Item>, j: nat, k: nat)
    requires j <= k <= |items|
    ensures Offset(items, j) <= Offset(items, k)
  {
    if j < k { OffsetsGrow(items, j, k - 1); }
  }

  /** The first n items assemble, to as many bytes as pass 1 counted. */
  lemma {:induction false} PrefixAssembles(items: seq<Item>, n: nat)
    requires WellFormed(items) && n <= |items|
    ensures var c := Code(items, LabelOffset(items, |items|), n); c.Some? && |c.value| == Offset(items, n)
  {
    hide WellFormed, Body, Meaning;
    if n > 0 {
      PrefixAssembles(items, n - 1);
      if items[n - 1].Emit? { BodyMeans(items, n - 1); }
    }
  }

  /** Item n - 1 adds its own bytes at the end. */
  lemma LastItemBytes(items: seq<Item>, n: nat)
    requires WellFormed(items) && 0 < n <= |items|
    ensures var labels := LabelOffset(items, |items|);
            && Code(items, labels, n - 1).Some? && |Code(items, labels, n - 1).value| == Offset(items, n - 1)
            && Code(items, labels, n) ==
               Some(Code(items, labels, n - 1).value +
                    if items[n - 1].Label? then [] else [OpByte(items[n - 1].op)] + BodyBytes(items, n - 1))
  {
    hide WellFormed, Body, Meaning, OpByte;
    PrefixAssembles(items, n);
    PrefixAssembles(items, n - 1);
    var before := Code(items, LabelOffset(items, |items|), n - 1).value;
    if items[n - 1].Emit? {
      BodyMeans(items, n - 1);
      var op, body := [OpByte(items[n - 1].op)], BodyBytes(items, n - 1);
      assert before + op + body == before + (op + body);
    } else {
      assert before + [] == before;
    }
  }

  /** The bytes of item k among those of the first n items. */
  lemma {:induction false} BytesOfItem(items: seq<Item>, n: nat, k: nat)
    requires WellFormed(items) && k < n <= |items| && items[k].Emit?
    ensures var c := Code(items, LabelOffset(items, |items|), n);
            && c.Some? && Offset(items, k + 1) <= |c.value|
            && c.value[Offset(items, k)..Offset(items, k + 1)] == [OpByte(items[k].op)] + BodyBytes(items, k)
  {
    hide WellFormed, Code, BodyBytes, OpByte;
    var labels := LabelOffset(items, |items|);
    LastItemBytes(items, n);
    PrefixAssembles(items, n);
    OffsetsGrow(items, k + 1, n);
    var before, now := Code(items, labels, n - 1).value, Code(items, labels, n).value;
    if k == n - 1 {
      assert now[|before|..] == [OpByte(items[k].op)] + BodyBytes(items, k);
    } else {
      BytesOfItem(items, n - 1, k);
      OffsetsGrow(items, k + 1, n - 1);
      OffsetsGrow(items, k, k + 1);
      assert now[Offset(items, k)..Offset(items, k + 1)] == before[Offset(items, k)..Offset(items, k + 1)];
    }
  }

  lemma Assembles(items: seq<Item>)
    requires WellFormed(items)
    ensures Assembled(items).Some? && |Assembled(items).value| == Offset(items, |items|)
  {
    PrefixAssembles(items, |items|);
  }

  /** An engine at the offset of item k fetches that item's instruction and stops at the next offset. */
  lemma FetchesItem(items: seq<Item>, k: nat, strict: bool)
    requires WellFormed(items) && k < |items| && items[k].Emit?
    ensures Assembled(items).Some?
    ensures Decode(Assembled(items).value, Offset(items, k), strict) ==
            Some(Fetched(Placed(items, items[k]), Offset(items, k + 1)))
  {
    hide WellFormed, Body, Meaning, OpByte, OpOf, Parse, Code, Placed;
    BytesOfItem(items, |items|, k);
    BodyMeans(items, k);
    OpRoundTrip(items[k].op);
    var code, at, next := Assembled(items).value, Offset(items, k), Offset(items, k + 1);
    assert code[at] == code[at..next][0];
    assert code[at + 1..next] == code[at..next][1..];
    assert ([OpByte(items[k].op)] + BodyBytes(items, k))[1..] == BodyBytes(items, k);
  }

  // ---- one instruction commutes with the change of addresses ------------------------------------------------

  predicate IsJump(i: Instr) { i.Jmp? || i.Jcc? || i.Call? }

  /** The same instruction with byte addresses as targets. */
  function Relocated(items: seq<Item>, i: Instr): Instr
    requires IsJump(i) ==> i.target <= |items|
  {
    match i
    case Jmp(t) => Jmp(Offset(items, t))
    case Jcc(ifZero, t) => Jcc(ifZero, Offset(items, t))
    case Call(t) => Call(Offset(items, t))
    case _ => i
  }

  ghost predicate Commutes(items: seq<Item>, i: Instr, m: Machine, site: nat)
    requires InRange(items, m) && (IsJump(i) ==> i.target <= |items|)
  {
    var r, b := Exec(i, m, site), Exec(Relocated(items, i), AtBytes(items, m), site);
    r.Some? == b.Some? && (r.Some? ==> InRange(items, r.value) && b.value == AtBytes(items, r.value))
  }

  lemma PlainCommutes(items: seq<Item>, i: Instr, m: Machine, site: nat)
    requires InRange(items, m) && !IsJump(i) && i != Ret
    ensures Commutes(items, i, m, site)
  {
    hide Offset, Addresses, MemIndex, AluOp, Complement, ShiftOp, CmpFlags, Condition, FoldPath, HashCells, MixCells;
    var b := AtBytes(items, m);
    assert Exec(i, b, site) ==
           match Exec(i, m, site) case None => None case Some(r) => Some(r.(ip := b.ip, stack := b.stack));
  }

  lemma JumpCommutes(items: seq<Item>, i: Instr, m: Machine, site: nat)
    requires InRange(items, m) && (i.Jmp? || i.Jcc?) && i.target <= |items|
    ensures Commutes(items, i, m, site)
  {
    hide Offset, Addresses, FoldPath;
  }

  lemma CallCommutes(items: seq<Item>, i: Instr, m: Machine, site: nat)
    requires InRange(items, m) && i.Call? && i.target <= |items|
    ensures Commutes(items, i, m, site)
  {
    hide Offset;
    assert Addresses(items, m.stack + [m.ip]) == Addresses(items, m.stack) + [Offset(items, m.ip)];
  }

  lemma RetCommutes(items: seq<Item>, m: Machine, site: nat)
    requires InRange(items, m)
    ensures Commutes(items, Ret, m, site)
  {
    hide Offset;
    if m.stack != [] {
      var n := |m.stack| - 1;
      assert Addresses(items, m.stack[..n]) == Addresses(items, m.stack)[..n];
    }
  }

  lemma ExecCommutes(items: seq<Item>, i: Instr, m: Machine, site: nat)
    requires InRange(items, m) && (IsJump(i) ==> i.target <= |items|)
    ensures Commutes(items, i, m, site)
  {
    hide Commutes;
    if i.Jmp? || i.Jcc? { JumpCommutes(items, i, m, site); }
    else if i.Call? { CallCommutes(items, i, m, site); }
    else if i == Ret { RetCommutes(items, m, site); }
    else { PlainCommutes(items, i, m, site); }
  }

  // ---- turns and whole runs ---------------------------------------------------------------------------------

  lemma PlacedIsRelocated(items: seq<Item>, it: Item)
    requires it.Emit? && Meaning(items, it).Some?
    ensures var i := Meaning(items, it).value;
            && (IsJump(i) ==> i.target <= |items|)
            && Placed(items, it) == Relocated(items, i)
  {
    hide Offset, NumBytes, BytesToCell, WordOf, Number;
  }

  lemma LabelTurn(items: seq<Item>, m: Machine, k: nat)
    requires WellFormed(items) && InRange(items, m) && k == Skip(items, m.ip) < |items|
    ensures LabelStep(items, m) == Exec(Meaning(items, items[k]).value, m.(ip := k + 1), Offset(items, k + 1))
  {
    hide Exec, Offset, Meaning;
  }

  lemma ByteTurn(items: seq<Item>, m: Machine, k: nat, strict: bool)
    requires WellFormed(items) && InRange(items, m) && k == Skip(items, m.ip) < |items|
    ensures Assembled(items).Some?
    ensures Step(Assembled(items).value, AtBytes(items, m), strict) ==
            Exec(Placed(items, items[k]), AtBytes(items, m.(ip := k + 1)), Offset(items, k + 1))
  {
    hide Exec, Meaning, Placed, Decode, Assembled, Addresses;
    FetchesItem(items, k, strict);
    hide Offset, WellFormed;
  }

  lemma StepsTogether(items: seq<Item>, m: Machine, strict: bool)
    requires WellFormed(items) && InRange(items, m)
    ensures Assembled(items).Some?
    ensures var l, b := LabelStep(items, m), Step(Assembled(items).value, AtBytes(items, m), strict);
            && l.Some? == b.Some?
            && (l.Some? ==> InRange(items, l.value) && b.value == AtBytes(items, l.value))
  {
    Assembles(items);
    var k := Skip(items, m.ip);
    if k == |items| {
      hide Exec, Decode, Assembled;
      StepPastEnd(Assembled(items).value, AtBytes(items, m), strict);
    } else {
      hide Exec, Step, LabelStep, Meaning, Placed, Relocated, Assembled, AtBytes, Offset;
      PlacedIsRelocated(items, items[k]);
      LabelTurn(items, m, k);
      ByteTurn(items, m, k, strict);
      hide WellFormed;
      ExecCommutes(items, Meaning(items, items[k]).value, m.(ip := k + 1), Offset(items, k + 1));
    }
  }

  /** The main loop on item indices. */
  function LabelRun(items: seq<Item>, m: Machine, steps: nat): Option<Machine>
    requires WellFormed(items) && InRange(items, m) && steps <= MAX_STEPS
    decreases MAX_STEPS - steps
  {
    if m.halted then Some(m)
    else if steps == MAX_STEPS then Some(m.(haltOperand := 0xEE))
    else
      match LabelStep(items, m)
      case None => None
      case Some(m') =>
        StepsTogether(items, m, true);
        LabelRun(items, m', steps + 1)
  }

  /** `LabelRun` unrolled once. */
  lemma LabelRunTurn(items: seq<Item>, m: Machine, steps: nat)
    requires WellFormed(items) && InRange(items, m) && steps <= MAX_STEPS
    ensures m.halted ==> LabelRun(items, m, steps) == Some(m)
    ensures !m.halted && steps == MAX_STEPS ==> LabelRun(items, m, steps) == Some(m.(haltOperand := 0xEE))
    ensures !m.halted && steps < MAX_STEPS ==>
              var next := LabelStep(items, m);
              && (next.None? ==> LabelRun(items, m, steps) == None)
              && (next.Some? ==>
                    && InRange(items, next.value)
                    && LabelRun(items, m, steps) == LabelRun(items, next.value, steps + 1))
  {
    StepsTogether(items, m, true);
    hide LabelStep, Step, WellFormed, Assembled, AtBytes;
  }

  /**
   The assembled bytes do what the items mean: from corresponding machines both runs raise, or both
   stop after the same number of turns in corresponding machines, so also with the same result.
   */
  lemma {:induction false} AssemblyPreservesMeaning(items: seq<Item>, m: Machine, steps: nat, strict: bool)
    requires WellFormed(items) && InRange(items, m) && steps <= MAX_STEPS
    ensures Assembled(items).Some?
    ensures var l, b := LabelRun(items, m, steps), Run(Assembled(items).value, AtBytes(items, m), steps, strict);
            && l.Some? == b.Some?
            && (l.Some? ==> InRange(items, l.value) && b.value == AtBytes(items, l.value))
    decreases MAX_STEPS - steps
  {
    hide LabelStep, Step, Run, LabelRun, Assembled, WellFormed, Offset, Addresses;
    StepsTogether(items, m, strict);
    LabelRunTurn(items, m, steps);
    RunTurn(Assembled(items).value, AtBytes(items, m), steps, strict);
    if !m.halted && steps < MAX_STEPS && LabelStep(items, m).Some? {
      AssemblyPreservesMeaning(items, LabelStep(items, m).value, steps + 1, strict);
    }
  }
}
