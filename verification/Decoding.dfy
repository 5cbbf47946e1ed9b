/** What `Decode` finds at ip and what a turn then does, one equation per instruction. Both engines use them. */
module Decoding {
  import opened ByteStrings
  import opened Isa

  predicate At(code: Bytes, ip: nat, o: Op) { ip < |code| && OpOf(code[ip]) == Some(o) }

  /** A method's outcome agrees with a specification: both raise, or both end in the same machine. */
  ghost predicate Agrees(r: Option<()>, spec: Option<Machine>, m: Machine) {
    r.Some? == spec.Some? && (r.Some? ==> m == spec.value)
  }

  // ---- decoding -------------------------------------------------------------------------------------

  lemma DecodeNop(code: Bytes, ip: nat, strict: bool)
    requires At(code, ip, NOP)
    ensures Decode(code, ip, strict) ==
            Some(Fetched(Nop, ip + 1))
  { hide OpOf; }

  lemma DecodeMovRR(code: Bytes, ip: nat, strict: bool)
    requires At(code, ip, MOV_RR)
    ensures Decode(code, ip, strict) ==
            if ip + 2 < |code| then Some(Fetched(MovRR(code[ip + 1], code[ip + 2]), ip + 3)) else None
  { hide OpOf; }

  lemma DecodeLoad(code: Bytes, ip: nat, strict: bool)
    requires At(code, ip, LOAD)
    ensures Decode(code, ip, strict) ==
            if ip + 2 < |code| then Some(Fetched(Load(code[ip + 1], code[ip + 2]), ip + 3)) else None
  { hide OpOf; }

  lemma DecodeStore(code: Bytes, ip: nat, strict: bool)
    requires At(code, ip, STORE)
    ensures Decode(code, ip, strict) ==
            if ip + 2 < |code| then Some(Fetched(Store(code[ip + 1], code[ip + 2]), ip + 3)) else None
  { hide OpOf; }

  lemma DecodeNot(code: Bytes, ip: nat, strict: bool)
    requires At(code, ip, NOT)
    ensures Decode(code, ip, strict) ==
            if ip + 2 < |code| then Some(Fetched(Not(code[ip + 1], code[ip + 2]), ip + 3)) else None
  { hide OpOf; }

  lemma DecodeCmp(code: Bytes, ip: nat, strict: bool)
    requires At(code, ip, CMP)
    ensures Decode(code, ip, strict) ==
            if ip + 2 < |code| then Some(Fetched(Cmp(code[ip + 1], code[ip + 2]), ip + 3)) else None
  { hide OpOf; }

  lemma DecodeCMov(code: Bytes, ip: nat, strict: bool)
    requires At(code, ip, CMOV)
    ensures Decode(code, ip, strict) ==
            if ip + 3 < |code| then Some(Fetched(CMov(code[ip + 1], code[ip + 2], code[ip + 3]), ip + 4)) else None
  { hide OpOf; }

  lemma DecodeRet(code: Bytes, ip: nat, strict: bool)
    requires At(code, ip, RET)
    ensures Decode(code, ip, strict) ==
            Some(Fetched(Ret, ip + 1))
  { hide OpOf; }

  lemma DecodeHash(code: Bytes, ip: nat, strict: bool)
    requires At(code, ip, HASH_ROUND)
    ensures Decode(code, ip, strict) ==
            if ip + 3 < |code| then Some(Fetched(Hash(code[ip + 1], code[ip + 2], code[ip + 3]), ip + 4)) else None
  { hide OpOf; }

  lemma DecodeMix(code: Bytes, ip: nat, strict: bool)
    requires At(code, ip, MIX)
    ensures Decode(code, ip, strict) ==
            if ip + 2 < |code| then Some(Fetched(MixIn(code[ip + 1], code[ip + 2]), ip + 3)) else None
  { hide OpOf; }

  lemma DecodeHalt(code: Bytes, ip: nat, strict: bool)
    requires At(code, ip, HALT)
    ensures Decode(code, ip, strict) ==
            if ip + 1 < |code| then Some(Fetched(Halt(code[ip + 1]), ip + 2)) else None
  { hide OpOf; }

  lemma DecodeAlu(code: Bytes, ip: nat, o: Op, strict: bool)
    requires IsAlu(o) && At(code, ip, o)
    ensures Decode(code, ip, strict) ==
            if ip + 3 < |code| then Some(Fetched(Alu(o, code[ip + 1], code[ip + 2], code[ip + 3]), ip + 4)) else None
  { hide OpOf; }

  lemma DecodeShift(code: Bytes, ip: nat, o: Op, strict: bool)
    requires IsShift(o) && At(code, ip, o)
    ensures Decode(code, ip, strict) ==
            if ip + 3 < |code| then Some(Fetched(ShiftBy(o, code[ip + 1], code[ip + 2], code[ip + 3]),
                                                 ip + 4)) else None
  { hide OpOf; }

  lemma DecodeBranch(code: Bytes, ip: nat, o: Op, strict: bool)
    requires IsBranch(o) && At(code, ip, o)
    ensures Decode(code, ip, strict) ==
            if ip + 2 < |code| then Some(Fetched(Branch(o, Number(code[ip + 1..ip + 3])), ip + 3)) else None
  { hide OpOf; }

  lemma DecodeMovRI(code: Bytes, ip: nat, strict: bool)
    requires At(code, ip, MOV_RI)
    ensures Decode(code, ip, strict) ==
            var end := if ip + 10 <= |code| then ip + 10 else |code|;
            if ip + 1 < |code| && (strict ==> ip + 10 <= |code|)
            then Some(Fetched(MovRI(code[ip + 1], BytesToCell(code[ip + 2..end])), ip + 10)) else None
  {
    hide OpOf, BytesToCell;
    if ip + 10 <= |code| {
      assert code[ip + 1..ip + 10][1..] == code[ip + 2..ip + 10];
    } else if ip + 1 < |code| {
      assert code[ip + 2..] == code[ip + 2..|code|];
    }
  }

  // ---- a turn of the machine m whose ip is at the opcode ------------------------------------------------

  ghost predicate Ready(code: Bytes, m: Machine, o: Op) { m.Valid() && At(code, m.ip, o) }

  /** The two register operands behind ip are there and name registers. */
  predicate Reg2(code: Bytes, ip: nat) {
    ip + 2 < |code| && IsReg(code[ip + 1]) && IsReg(code[ip + 2])
  }

  predicate Reg3(code: Bytes, ip: nat) {
    ip + 3 < |code| && IsReg(code[ip + 1]) && IsReg(code[ip + 2]) && IsReg(code[ip + 3])
  }

  predicate Reg2Byte(code: Bytes, ip: nat) {
    ip + 3 < |code| && IsReg(code[ip + 1]) && IsReg(code[ip + 2])
  }

  lemma StepNop(code: Bytes, m: Machine, strict: bool)
    requires Ready(code, m, NOP)
    ensures Step(code, m, strict) ==
            Some(m.(ip := m.ip + 1))
  {
    hide Decode, OpOf;
    DecodeNop(code, m.ip, strict);
  }

  lemma StepUnknown(code: Bytes, m: Machine, strict: bool)
    requires m.Valid() && m.ip < |code| && OpOf(code[m.ip]).None?
    ensures Step(code, m, strict) == Some(m.(ip := m.ip + 1, halted := true, haltOperand := 0xFD))
  {
    hide OpOf;
  }

  lemma StepMovRI(code: Bytes, m: Machine, strict: bool)
    requires Ready(code, m, MOV_RI)
    ensures Step(code, m, strict) ==
            var end := if m.ip + 10 <= |code| then m.ip + 10 else |code|;
            if m.ip + 1 < |code| && (strict ==> m.ip + 10 <= |code|) && IsReg(code[m.ip + 1])
            then Some(m.(ip := m.ip + 10).Put(code[m.ip + 1], BytesToCell(code[m.ip + 2..end]))) else None
  {
    hide Decode, OpOf, BytesToCell;
    DecodeMovRI(code, m.ip, strict);
  }

  lemma StepMovRR(code: Bytes, m: Machine, strict: bool)
    requires Ready(code, m, MOV_RR)
    ensures Step(code, m, strict) ==
            if Reg2(code, m.ip)
            then Some(m.(ip := m.ip + 3).Put(code[m.ip + 1], m.Get(code[m.ip + 2]))) else None
  {
    hide Decode, OpOf;
    DecodeMovRR(code, m.ip, strict);
  }

  lemma StepLoad(code: Bytes, m: Machine, strict: bool)
    requires Ready(code, m, LOAD)
    ensures Step(code, m, strict) ==
            if Reg2(code, m.ip)
            then Some(m.(ip := m.ip + 3).Put(code[m.ip + 1], m.mem[MemIndex(m.Get(code[m.ip + 2]))])) else None
  {
    hide Decode, OpOf, MemIndex;
    DecodeLoad(code, m.ip, strict);
  }

  lemma StepStore(code: Bytes, m: Machine, strict: bool)
    requires Ready(code, m, STORE)
    ensures Step(code, m, strict) ==
            if Reg2(code, m.ip)
            then Some(m.(ip := m.ip + 3, mem := m.mem[MemIndex(m.Get(code[m.ip + 1])) := m.Get(code[m.ip + 2])]))
            else None
  {
    hide Decode, OpOf, MemIndex;
    DecodeStore(code, m.ip, strict);
  }

  lemma StepAlu(code: Bytes, m: Machine, o: Op, strict: bool)
    requires IsAlu(o)
    requires Ready(code, m, o)
    ensures Step(code, m, strict) ==
            if Reg3(code, m.ip)
            then Some(m.(ip := m.ip + 4).Put(code[m.ip + 1],
                                             AluOp(o, m.Get(code[m.ip + 2]), m.Get(code[m.ip + 3])))) else None
  {
    hide Decode, OpOf, AluOp;
    DecodeAlu(code, m.ip, o, strict);
  }

  lemma StepNot(code: Bytes, m: Machine, strict: bool)
    requires Ready(code, m, NOT)
    ensures Step(code, m, strict) ==
            if Reg2(code, m.ip)
            then Some(m.(ip := m.ip + 3).Put(code[m.ip + 1], Complement(m.Get(code[m.ip + 2])))) else None
  {
    hide Decode, OpOf, Complement;
    DecodeNot(code, m.ip, strict);
  }

  lemma StepShift(code: Bytes, m: Machine, o: Op, strict: bool)
    requires IsShift(o)
    requires Ready(code, m, o)
    ensures Step(code, m, strict) ==
            if Reg2Byte(code, m.ip)
            then Some(m.(ip := m.ip + 4).Put(code[m.ip + 1],
                                             ShiftOp(o, m.Get(code[m.ip + 2]), code[m.ip + 3]))) else None
  {
    hide Decode, OpOf, ShiftOp;
    DecodeShift(code, m.ip, o, strict);
  }

  lemma StepCmp(code: Bytes, m: Machine, strict: bool)
    requires Ready(code, m, CMP)
    ensures Step(code, m, strict) ==
            if Reg2(code, m.ip)
            then Some(m.(ip := m.ip + 3, flags := CmpFlags(m.Get(code[m.ip + 1]), m.Get(code[m.ip + 2])))) else None
  {
    hide Decode, OpOf, CmpFlags;
    DecodeCmp(code, m.ip, strict);
  }

  lemma StepCMov(code: Bytes, m: Machine, strict: bool)
    requires Ready(code, m, CMOV)
    ensures m.ip + 3 >= |code| ==> Step(code, m, strict) == None
    ensures m.ip + 3 < |code| ==>
              Step(code, m, strict) ==
              match Condition(m.flags, code[m.ip + 3])
              case None => None
              case Some(taken) =>
                if !taken then Some(m.(ip := m.ip + 4))
                else if Reg2Byte(code, m.ip) then Some(m.(ip := m.ip + 4).Put(code[m.ip + 1],
                    m.Get(code[m.ip + 2]))) else None
  {
    hide Decode, OpOf, Condition;
    DecodeCMov(code, m.ip, strict);
  }

  /** The operand of the branch at ip. */
  function Target(code: Bytes, ip: nat): nat
    requires ip + 2 < |code|
  { Number(code[ip + 1..ip + 3]) }

  lemma StepJmp(code: Bytes, m: Machine, strict: bool)
    requires Ready(code, m, JMP)
    ensures Step(code, m, strict) ==
            if m.ip + 2 < |code|
            then Some(m.(ip := Target(code, m.ip))) else None
  {
    hide Decode, OpOf, Number;
    DecodeBranch(code, m.ip, JMP, strict);
  }

  lemma StepCall(code: Bytes, m: Machine, strict: bool)
    requires Ready(code, m, CALL)
    ensures Step(code, m, strict) ==
            if m.ip + 2 < |code|
            then Some(m.(stack := m.stack + [m.ip + 3], ip := Target(code, m.ip))) else None
  {
    hide Decode, OpOf, Number;
    DecodeBranch(code, m.ip, CALL, strict);
  }

  lemma StepJcc(code: Bytes, m: Machine, o: Op, strict: bool)
    requires (o.JZ? || o.JNZ?) && Ready(code, m, o)
    ensures Step(code, m, strict) ==
            if m.ip + 2 < |code|
            then
              var taken := o.JZ? == m.flags.zf;
              Some(m.(path := FoldPath(m.path, m.ip + 3, taken), ip := if taken then Target(code, m.ip) else m.ip + 3))
            else None
  {
    hide Decode, OpOf, Number, FoldPath;
    DecodeBranch(code, m.ip, o, strict);
  }

  lemma StepRet(code: Bytes, m: Machine, strict: bool)
    requires Ready(code, m, RET)
    ensures Step(code, m, strict) ==
            if m.stack != []
            then Some(m.(ip := m.stack[|m.stack| - 1], stack := m.stack[..|m.stack| - 1])) else None
  {
    hide Decode, OpOf;
    DecodeRet(code, m.ip, strict);
  }

  lemma StepHash(code: Bytes, m: Machine, strict: bool)
    requires Ready(code, m, HASH_ROUND)
    ensures Step(code, m, strict) ==
            if Reg3(code, m.ip)
            then Some(m.(ip := m.ip + 4).Put(code[m.ip + 1],
                                             HashCells(m.Get(code[m.ip + 2]), m.Get(code[m.ip + 3])))) else None
  {
    hide Decode, OpOf, HashCells;
    DecodeHash(code, m.ip, strict);
  }

  lemma StepMix(code: Bytes, m: Machine, strict: bool)
    requires Ready(code, m, MIX)
    ensures Step(code, m, strict) ==
            if Reg2(code, m.ip)
            then Some(m.(ip := m.ip + 3).Put(code[m.ip + 1],
                                             MixCells(m.Get(code[m.ip + 1]), m.Get(code[m.ip + 2]),
                                                      code[m.ip + 1]))) else None
  {
    hide Decode, OpOf, MixCells;
    DecodeMix(code, m.ip, strict);
  }

  lemma StepHalt(code: Bytes, m: Machine, strict: bool)
    requires Ready(code, m, HALT)
    ensures Step(code, m, strict) ==
            if m.ip + 1 < |code|
            then Some(m.(ip := m.ip + 2, halted := true, haltOperand := code[m.ip + 1])) else None
  {
    hide Decode, OpOf;
    DecodeHalt(code, m.ip, strict);
  }
}
