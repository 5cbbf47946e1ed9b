/** The two-pass assembler of tools/generate_vm_bytecode.py. */
module Assembler {
  import opened ByteStrings
  import opened Isa

  datatype Operand = Num(n: int) | Ref(name: string)
  datatype Item = Label(name: string) | Emit(op: Op, operands: seq<Operand>)

  // ---- layout: what pass 1 computes -----------------------------------------------------------------

  function Size(it: Item): nat { if it.Label? then 0 else 1 + OperandLen(it.op) }

  /** The byte offset of item k; of the end of the code when k is past the last item. */
  function Offset(items: seq<Item>, k: nat): nat
    requires k <= |items|
  { if k == 0 then 0 else Offset(items, k - 1) + Size(items[k - 1]) }

  /** Each label name with the index of its last definition among the first k items. */
  function LabelIndex(items: seq<Item>, k: nat): map<string, nat>
    requires k <= |items|
  {
    if k == 0 then map[]
    else
      var before := LabelIndex(items, k - 1);
      if items[k - 1].Label? then before[items[k - 1].name := k - 1] else before
  }

  /** Each label name with its byte offset: the `labels` dictionary after k items. */
  function LabelOffset(items: seq<Item>, k: nat): map<string, nat>
    requires k <= |items|
  {
    if k == 0 then map[]
    else
      var before := LabelOffset(items, k - 1);
      if items[k - 1].Label? then before[items[k - 1].name := Offset(items, k - 1)] else before
  }

  lemma {:induction false} LabelOffsetOfIndex(items: seq<Item>, k: nat)
    requires k <= |items|
    ensures LabelOffset(items, k).Keys == LabelIndex(items, k).Keys
    ensures forall n :: n in LabelIndex(items, k) ==>
              && LabelIndex(items, k)[n] < k
              && items[LabelIndex(items, k)[n]] == Label(n)
              && LabelOffset(items, k)[n] == Offset(items, LabelIndex(items, k)[n])
  {
    if k > 0 { LabelOffsetOfIndex(items, k - 1); }
  }

  // ---- encoding: what pass 2 emits --------------------------------------------------------------------

  const WORD_VALUES: int := 0x1_0000_0000_0000_0000

  function NumBytes(operands: seq<Operand>): Option<Bytes> {
    if operands == [] then Some([])
    else if operands[0].Ref? then None
    else
      var rest :- NumBytes(operands[1..]);
      Some([operands[0].n % 256] + rest)
  }

  function Address(operand: Operand, labels: map<string, nat>): Option<int> {
    match operand
    case Num(n) => Some(n)
    case Ref(name) => if name in labels then Some(labels[name]) else None
  }

  /** The operand bytes of an instruction; None when the assembler raises. */
  function Body(op: Op, operands: seq<Operand>, labels: map<string, nat>): Option<Bytes> {
    var body :-
      if op.MOV_RI? then
        if |operands| == 2 && operands[0].Num? && operands[1].Num?
        then Some([operands[0].n % 256] + BigEndian(operands[1].n % WORD_VALUES, 8)) else None
      else if IsBranch(op) then
        if operands == [] then None
        else
          var addr :- Address(operands[0], labels);
          Some(BigEndian(addr % 0x1_0000, 2))
      else NumBytes(operands);
    if |body| == OperandLen(op) then Some(body) else None
  }

  /** The bytes of the first k items. */
  function Code(items: seq<Item>, labels: map<string, nat>, k: nat): Option<Bytes>
    requires k <= |items|
  {
    if k == 0 then Some([])
    else
      var before :- Code(items, labels, k - 1);
      match items[k - 1]
      case Label(_) => Some(before)
      case Emit(op, operands) =>
        var body :- Body(op, operands, labels);
        Some(before + [OpByte(op)] + body)
  }

  function Assembled(items: seq<Item>): Option<Bytes> {
    Code(items, LabelOffset(items, |items|), |items|)
  }

  // ---- the class -----------------------------------------------------------------------------------------

  class Assembler {
    var items: seq<Item>
    var labels: map<string, nat>

    /** The dictionary only holds names that some label item defines. */
    ghost predicate Valid()
      reads this
    {
      labels.Keys <= LabelOffset(items, |items|).Keys
    }

    constructor ()
      ensures Valid() && items == [] && labels == map[]
    {
      items := [];
      labels := map[];
    }

    method AddLabel(name: string)
      requires Valid()
      modifies this`items
      ensures Valid() && items == old(items) + [Label(name)]
    {
      KeysGrow(items, Label(name), |items|);
      items := items + [Label(name)];
    }

    method AddEmit(op: Op, operands: seq<Operand>)
      requires Valid()
      modifies this`items
      ensures Valid() && items == old(items) + [Emit(op, operands)]
    {
      KeysGrow(items, Emit(op, operands), |items|);
      items := items + [Emit(op, operands)];
    }

    static lemma {:induction false} KeysGrow(items: seq<Item>, it: Item, k: nat)
      requires k <= |items|
      ensures Offset(items + [it], k) == Offset(items, k)
      ensures LabelOffset(items + [it], k) == LabelOffset(items, k)
    {
      if k > 0 { KeysGrow(items, it, k - 1); }
    }

    /** Both passes. */
    method Assemble() returns (r: Option<Bytes>)
      requires Valid()
      modifies this`labels
      ensures Valid()
      ensures labels == LabelOffset(items, |items|)
      ensures r == Assembled(items)
    {
      var off := 0;
      for k := 0 to |items|
        invariant off == Offset(items, k)
        invariant labels == old(labels) + LabelOffset(items, k)
      {
        match items[k] {
          case Label(name) => labels := labels[name := off];
          case Emit(op, _) => off := off + 1 + OperandLen(op);
        }
      }
      assert labels == LabelOffset(items, |items|);
      var out := [];
      for k := 0 to |items|
        invariant Code(items, labels, k) == Some(out)
      {
        if items[k].Emit? {
          var body := Body(items[k].op, items[k].operands, labels);
          if body.None? {
            CodeStops(items, labels, k + 1, |items|);
            return None;
          }
          out := out + [OpByte(items[k].op)] + body.value;
        }
      }
      r := Some(out);
    }

    static lemma {:induction false} CodeStops(items: seq<Item>, labels: map<string, nat>, k: nat, n: nat)
      requires k <= n <= |items| && Code(items, labels, k) == None
      ensures Code(items, labels, n) == None
      decreases n
    {
      if k < n { CodeStops(items, labels, k, n - 1); }
    }
  }
}
