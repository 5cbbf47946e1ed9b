/** The linear sweep of tools/disassemble_vm.py. */
module Disassembler {
  import opened ByteStrings
  import opened Isa
  import opened Assembler
  import opened LabelMachine
  import opened Lockstep

  /** One line of the listing; an unknown byte is a line of its own. */
  datatype Line = Line(offset: nat, op: Option<Op>, bytes: Bytes)

  function LineAt(code: Bytes, ip: nat): Line
    requires ip < |code|
  {
    match OpOf(code[ip])
    case None => Line(ip, None, [code[ip]])
    case Some(o) =>
      var next := ip + 1 + OperandLen(o);
      Line(ip, Some(o), code[ip + 1..if next <= |code| then next else |code|])
  }

  function Width(line: Line): nat {
    match line.op
    case None => 1
    case Some(o) => 1 + OperandLen(o)
  }

  function Sweep(code: Bytes, ip: nat): seq<Line>
    decreases |code| - ip
  {
    if ip >= |code| then []
    else
      var line := LineAt(code, ip);
      [line] + Sweep(code, ip + Width(line))
  }

  method Disassemble(code: Bytes) returns (lines: seq<Line>)
    ensures lines == Sweep(code, 0)
  {
    hide OpOf, LineAt;
    lines := [];
    var ip := 0;
    while ip < |code|
      invariant Sweep(code, 0) == lines + Sweep(code, ip)
      decreases |code| - ip
    {
      var line := LineAt(code, ip);
      lines := lines + [line];
      ip := ip + Width(line);
    }
  }

  /** The address a line branches to, if it is a branch. */
  function BranchTarget(line: Line): set<nat> {
    if line.op.Some? && IsBranch(line.op.value)
    then {Number(line.bytes[..if |line.bytes| < 2 then |line.bytes| else 2])} else {}
  }

  function Targets(lines: seq<Line>): set<nat> {
    if lines == [] then {} else Targets(lines[..|lines| - 1]) + BranchTarget(lines[|lines| - 1])
  }

  function HexDigit(n: nat): char
    requires n < 16
  { if n < 10 then ('0' as int + n) as char else ('a' as int + n - 10) as char }

  /** The last k hexadecimal digits of n. */
  function Hex(n: nat, k: nat): (t: string)
    ensures |t| == k
  { if k == 0 then "" else Hex(n / 16, k - 1) + [HexDigit(n % 16)] }

  function LabelText(address: nat): string { "L" + Hex(address, 4) }

  /** Every branch target with its label. */
  method FindLabels(code: Bytes) returns (labels: map<nat, string>)
    ensures labels.Keys == Targets(Sweep(code, 0))
    ensures forall a :: a in labels ==> labels[a] == LabelText(a)
  {
    hide Number, Hex;
    var lines := Disassemble(code);
    var targets := {};
    for k := 0 to |lines|
      invariant targets == Targets(lines[..k])
    {
      assert lines[..k + 1][..k] == lines[..k];
      targets := targets + BranchTarget(lines[k]);
    }
    assert lines[..|lines|] == lines;
    labels := map a | a in targets :: LabelText(a);
  }

  /** Lower-case digits, the most significant first. */
  lemma LabelExample()
    ensures LabelText(0x12F9) == "L12f9"
  {
    assert Hex(0x12F9, 4) == "12f9";
  }

  lemma {:induction false} HexInjective(a: nat, b: nat, k: nat)
    requires a < Power16(k) && b < Power16(k) && Hex(a, k) == Hex(b, k)
    ensures a == b
  {
    if k > 0 {
      var s, t := Hex(a, k), Hex(b, k);
      assert s[k - 1] == HexDigit(a % 16) && t[k - 1] == HexDigit(b % 16);
      assert s[..k - 1] == Hex(a / 16, k - 1) && t[..k - 1] == Hex(b / 16, k - 1);
      HexInjective(a / 16, b / 16, k - 1);
    }
  }

  function Power16(k: nat): nat { if k == 0 then 1 else 16 * Power16(k - 1) }

  lemma {:induction false} TargetBound(lines: seq<Line>, a: nat)
    requires a in Targets(lines)
    ensures a < 0x1_0000
  {
    hide Number;
    var last := lines[|lines| - 1];
    if a in BranchTarget(last) {
      var b := last.bytes[..if |last.bytes| < 2 then |last.bytes| else 2];
      NumberBound(b);
      Pow256Values();
      assert Pow256(0) == 1;
    } else {
      TargetBound(lines[..|lines| - 1], a);
    }
  }

  /** On any code different branch targets get different labels. */
  lemma LabelsDiffer(code: Bytes, a: nat, b: nat)
    requires a in Targets(Sweep(code, 0)) && b in Targets(Sweep(code, 0)) && a != b
    ensures LabelText(a) != LabelText(b)
  {
    hide Sweep, Targets;
    TargetBound(Sweep(code, 0), a);
    TargetBound(Sweep(code, 0), b);
    assert Power16(4) == 0x1_0000 by { assert Power16(2) == 256; }
    hide Hex, Power16;
    assert LabelText(a)[1..] == Hex(a, 4) && LabelText(b)[1..] == Hex(b, 4);
    if LabelText(a) == LabelText(b) { HexInjective(a, b, 4); }
  }

  // ---- nothing is lost, on any code -------------------------------------------------------------------------

  function LineBytes(line: Line): Bytes {
    match line.op
    case None => line.bytes
    case Some(o) => [OpByte(o)] + line.bytes
  }

  function Bytecode(lines: seq<Line>): Bytes {
    if lines == [] then [] else LineBytes(lines[0]) + Bytecode(lines[1..])
  }

  function End(code: Bytes, ip: nat): (e: nat)
    requires ip < |code|
    ensures ip < e <= |code|
  {
    var next := ip + Width(LineAt(code, ip));
    if next <= |code| then next else |code|
  }

  lemma LineIsSlice(code: Bytes, ip: nat)
    requires ip < |code|
    ensures LineBytes(LineAt(code, ip)) == code[ip..End(code, ip)]
  {
    hide OpOf, OpByte, OperandLen;
    OpOfInjective(code[ip]);
    assert code[ip..End(code, ip)] == [code[ip]] + code[ip + 1..End(code, ip)];
  }

  lemma SweepUnfolds(code: Bytes, ip: nat)
    requires ip < |code|
    ensures Sweep(code, ip) == [LineAt(code, ip)] + Sweep(code, End(code, ip))
  {
    hide LineAt;
  }

  lemma BytecodeOfCons(line: Line, rest: seq<Line>)
    ensures Bytecode([line] + rest) == LineBytes(line) + Bytecode(rest)
  {
    hide LineBytes;
    assert ([line] + rest)[1..] == rest;
  }

  /** Printing the raw bytes of the listing prints the code, also for bytes no assembler emits. */
  lemma {:induction false} SweepLosesNothing(code: Bytes, ip: nat)
    requires ip <= |code|
    ensures Bytecode(Sweep(code, ip)) == code[ip..]
    decreases |code| - ip
  {
    if ip < |code| {
      hide Sweep, Bytecode, LineAt, LineBytes, Width, End;
      var end := End(code, ip);
      SweepUnfolds(code, ip);
      BytecodeOfCons(LineAt(code, ip), Sweep(code, end));
      LineIsSlice(code, ip);
      SweepLosesNothing(code, end);
    }
  }

  // ---- the listing of an assembled program ------------------------------------------------------------------

  /** The emitted instructions from item k on, with their offsets. */
  function Listing(items: seq<Item>, k: nat): seq<Line>
    requires WellFormed(items) && k <= |items|
    decreases |items| - k
  {
    if k == |items| then []
    else if items[k].Label? then Listing(items, k + 1)
    else [Line(Offset(items, k), Some(items[k].op), BodyBytes(items, k))] + Listing(items, k + 1)
  }

  lemma LineOfItem(items: seq<Item>, k: nat)
    requires WellFormed(items) && k < |items| && items[k].Emit?
    ensures Assembled(items).Some? && Offset(items, k) < |Assembled(items).value|
    ensures LineAt(Assembled(items).value, Offset(items, k)) ==
            Line(Offset(items, k), Some(items[k].op), BodyBytes(items, k))
  {
    hide WellFormed, Body, Meaning, OpByte, OpOf, Code;
    BytesOfItem(items, |items|, k);
    BodyMeans(items, k);
    OpRoundTrip(items[k].op);
    var code, at, next := Assembled(items).value, Offset(items, k), Offset(items, k + 1);
    assert code[at] == code[at..next][0];
    assert code[at + 1..next] == code[at..next][1..];
    assert ([OpByte(items[k].op)] + BodyBytes(items, k))[1..] == BodyBytes(items, k);
  }

  lemma EndOfItem(items: seq<Item>, k: nat)
    requires WellFormed(items) && k < |items| && items[k].Emit?
    ensures Assembled(items).Some? && Offset(items, k) < |Assembled(items).value|
    ensures End(Assembled(items).value, Offset(items, k)) == Offset(items, k + 1)
  {
    LineOfItem(items, k);
    BytesOfItem(items, |items|, k);
    hide WellFormed, BodyBytes, LineAt, Code;
  }

  lemma SweepStops(code: Bytes)
    ensures Sweep(code, |code|) == []
  {}

  /** The sweep finds exactly the emitted instructions, in order, at the offsets of pass 1. */
  lemma {:induction false} SweepFindsListing(items: seq<Item>, k: nat)
    requires WellFormed(items) && k <= |items|
    ensures Assembled(items).Some?
    ensures Sweep(Assembled(items).value, Offset(items, k)) == Listing(items, k)
    decreases |items| - k
  {
    hide WellFormed, LineAt, Assembled, BodyBytes, Sweep, End;
    Assembles(items);
    if k == |items| {
      SweepStops(Assembled(items).value);
    } else {
      SweepFindsListing(items, k + 1);
      if items[k].Emit? {
        LineOfItem(items, k);
        EndOfItem(items, k);
        SweepUnfolds(Assembled(items).value, Offset(items, k));
      }
    }
  }
}
