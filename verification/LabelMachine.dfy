/**
 What a list of items means before it is assembled: a machine whose ip, jump targets and stacked
 return addresses are item indices. The assembled bytes run in lockstep with it.
 */
module LabelMachine {
  import opened ByteStrings
  import opened Words
  import opened Isa
  import opened Assembler

  // ---- resolving operands to items -----------------------------------------------------------------------

  /** The first index at or after k that starts at byte `addr`. */
  function FindOffset(items: seq<Item>, addr: nat, k: nat): (r: Option<nat>)
    requires k <= |items|
    ensures r.Some? ==> k <= r.value <= |items| && Offset(items, r.value) == addr
    decreases |items| - k
  {
    if Offset(items, k) == addr then Some(k)
    else if k == |items| then None
    else FindOffset(items, addr, k + 1)
  }

  /** The item a branch operand names: the label's last definition, or the item at a raw address. */
  function TargetItem(items: seq<Item>, operand: Operand): (r: Option<nat>)
    ensures r.Some? ==> r.value <= |items|
  {
    match operand
    case Ref(name) =>
      LabelOffsetOfIndex(items, |items|);
      if name in LabelIndex(items, |items|) then Some(LabelIndex(items, |items|)[name]) else None
    case Num(n) => FindOffset(items, n % 0x1_0000, 0)
  }

  /** A 64-bit word from its base-256 digits. */
  function WordOf(n: nat): Word { if n == 0 then 0 else AppendByte(WordOf(n / 256), n % 256) }

  /** The instruction an item stands for, with item indices as targets. */
  function Meaning(items: seq<Item>, it: Item): Option<Instr>
    requires it.Emit?
  {
    if it.op.MOV_RI? then
      if |it.operands| == 2 && it.operands[0].Num? && it.operands[1].Num?
      then Some(MovRI(it.operands[0].n % 256, Cell(WordOf(it.operands[1].n % WORD_VALUES)))) else None
    else if IsBranch(it.op) then
      if it.operands == [] then None
      else
        var t :- TargetItem(items, it.operands[0]);
        Some(Branch(it.op, t))
    else
      var a :- NumBytes(it.operands);
      if |a| == OperandLen(it.op) then Some(Parse(it.op, a)) else None
  }

  /** Labels take no time: the first item at or after k that is not a label. */
  function Skip(items: seq<Item>, k: nat): (r: nat)
    requires k <= |items|
    ensures k <= r <= |items| && Offset(items, r) == Offset(items, k)
    ensures r < |items| ==> items[r].Emit?
    decreases |items| - k
  {
    if k < |items| && items[k].Label? then Skip(items, k + 1) else k
  }

  ghost predicate InRange(items: seq<Item>, m: Machine) {
    && m.Valid() && m.ip <= |items|
    && forall i :: 0 <= i < |m.stack| ==> m.stack[i] <= |items|
  }

  /** One turn on item indices. */
  function LabelStep(items: seq<Item>, m: Machine): Option<Machine>
    requires InRange(items, m)
  {
    var k := Skip(items, m.ip);
    if k == |items| then None
    else
      var i :- Meaning(items, items[k]);
      Exec(i, m.(ip := k + 1), Offset(items, k + 1))
  }

  // ---- the relation to bytes --------------------------------------------------------------------------------

  function Addresses(items: seq<Item>, stack: seq<nat>): (a: seq<nat>)
    requires forall i :: 0 <= i < |stack| ==> stack[i] <= |items|
    ensures |a| == |stack|
  { seq(|stack|, i requires 0 <= i < |stack| => Offset(items, stack[i])) }

  /** The same machine with item indices replaced by byte offsets; everything else is equal. */
  function AtBytes(items: seq<Item>, m: Machine): (b: Machine)
    requires InRange(items, m)
    ensures b.Valid()
  {
    m.(ip := Offset(items, m.ip), stack := Addresses(items, m.stack))
  }

  /** Every instruction has a meaning, and the addresses of the branches survive the cut to 16 bits. */
  ghost predicate WellFormed(items: seq<Item>) {
    forall k :: 0 <= k < |items| && items[k].Emit? ==>
      && Meaning(items, items[k]).Some?
      && (IsBranch(items[k].op) ==> Offset(items, TargetItem(items, items[k].operands[0]).value) < 0x1_0000)
  }

  // ---- the assembled bytes ----------------------------------------------------------------------------------

  lemma {:induction false} WordOfBytes(n: nat, k: nat)
    requires n < Pow256(k)
    ensures BytesToWord(BigEndian(n, k)) == WordOf(n)
  {
    ZeroBytes();
    hide AppendByte;
    if k > 0 {
      WordOfBytes(n / 256, k - 1);
      assert BigEndian(n, k)[..k - 1] == BigEndian(n / 256, k - 1);
    }
  }

  lemma ZeroBytes()
    ensures AppendByte(0, 0) == 0
  {}

  /** The operand bytes of item k, and what an engine makes of them. */
  ghost predicate BodyIs(items: seq<Item>, k: nat, i: Instr)
    requires k < |items| && items[k].Emit?
  {
    var body := Body(items[k].op, items[k].operands, LabelOffset(items, |items|));
    body.Some? && |body.value| == OperandLen(items[k].op) && Parse(items[k].op, body.value) == i
  }

  lemma MovBodyMeans(items: seq<Item>, k: nat)
    requires k < |items| && items[k].Emit? && items[k].op.MOV_RI?
    requires Meaning(items, items[k]).Some?
    ensures BodyIs(items, k, Meaning(items, items[k]).value)
  {
    hide WordOf, BytesToWord;
    var it := items[k];
    var n := it.operands[1].n % WORD_VALUES;
    Pow256Values();
    WordOfBytes(n, 8);
    var body := [it.operands[0].n % 256] + BigEndian(n, 8);
    assert body[1..] == BigEndian(n, 8);
    hide BigEndian;
  }

  /** The instruction of item k with byte addresses as targets. */
  function Placed(items: seq<Item>, it: Item): Instr
    requires it.Emit? && Meaning(items, it).Some?
  {
    if IsBranch(it.op) then Branch(it.op, Offset(items, TargetItem(items, it.operands[0]).value))
    else Meaning(items, it).value
  }

  lemma BranchBodyMeans(items: seq<Item>, k: nat)
    requires k < |items| && items[k].Emit? && IsBranch(items[k].op)
    requires Meaning(items, items[k]).Some?
    requires Offset(items, TargetItem(items, items[k].operands[0]).value) < 0x1_0000
    ensures BodyIs(items, k, Placed(items, items[k]))
  {
    hide Offset, FindOffset;
    LabelOffsetOfIndex(items, |items|);
    var it := items[k];
    var t := TargetItem(items, it.operands[0]).value;
    var addr := Address(it.operands[0], LabelOffset(items, |items|)).value;
    assert addr % 0x1_0000 == Offset(items, t);
    Pow256Values();
    NumberOfBigEndian(Offset(items, t), 2);
    hide BigEndian;
  }

  lemma BodyMeans(items: seq<Item>, k: nat)
    requires WellFormed(items) && k < |items| && items[k].Emit?
    ensures BodyIs(items, k, Placed(items, items[k]))
  {
    if items[k].op.MOV_RI? {
      MovBodyMeans(items, k);
    } else if IsBranch(items[k].op) {
      BranchBodyMeans(items, k);
    }
  }
}
