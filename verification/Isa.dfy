/**
 The instruction set of the virtual machine: decoding from bytes, the effect of one instruction,
 and a bounded run. Both engines are proved against the functions of this module.
 */
module Isa {
  import opened ByteStrings
  import opened Words
  import opened Crypto

  datatype Op =
    | NOP | MOV_RI | MOV_RR | LOAD | STORE | ADD | SUB | MUL | XOR | AND | OR | NOT | ROL | ROR | SHL | SHR
    | CMP | CMOV | JMP | JZ | JNZ | CALL | RET | HASH_ROUND | MIX | HALT

  /** The byte an opcode is written as. */
  function OpByte(o: Op): byte {
    match o
    case NOP => 0x00
    case MOV_RI => 0x10
    case MOV_RR => 0x11
    case LOAD => 0x20
    case STORE => 0x21
    case ADD => 0x30
    case SUB => 0x31
    case MUL => 0x32
    case XOR => 0x33
    case AND => 0x34
    case OR => 0x35
    case NOT => 0x36
    case ROL => 0x40
    case ROR => 0x41
    case SHL => 0x42
    case SHR => 0x43
    case CMP => 0x50
    case CMOV => 0x51
    case JMP => 0x60
    case JZ => 0x61
    case JNZ => 0x62
    case CALL => 0x63
    case RET => 0x64
    case HASH_ROUND => 0x70
    case MIX => 0x71
    case HALT => 0xF0
  }

  /** The opcode a byte stands for; None for a byte that is no opcode. */
  function OpOf(b: byte): Option<Op> {
    if b == 0x00 then Some(NOP)
    else if b == 0x10 then Some(MOV_RI)
    else if b == 0x11 then Some(MOV_RR)
    else if b == 0x20 then Some(LOAD)
    else if b == 0x21 then Some(STORE)
    else if b == 0x30 then Some(ADD)
    else if b == 0x31 then Some(SUB)
    else if b == 0x32 then Some(MUL)
    else if b == 0x33 then Some(XOR)
    else if b == 0x34 then Some(AND)
    else if b == 0x35 then Some(OR)
    else if b == 0x36 then Some(NOT)
    else if b == 0x40 then Some(ROL)
    else if b == 0x41 then Some(ROR)
    else if b == 0x42 then Some(SHL)
    else if b == 0x43 then Some(SHR)
    else if b == 0x50 then Some(CMP)
    else if b == 0x51 then Some(CMOV)
    else if b == 0x60 then Some(JMP)
    else if b == 0x61 then Some(JZ)
    else if b == 0x62 then Some(JNZ)
    else if b == 0x63 then Some(CALL)
    else if b == 0x64 then Some(RET)
    else if b == 0x70 then Some(HASH_ROUND)
    else if b == 0x71 then Some(MIX)
    else if b == 0xF0 then Some(HALT)
    else None
  }

  lemma OpRoundTrip(o: Op)
    ensures OpOf(OpByte(o)) == Some(o)
  {}

  lemma OpOfInjective(b: byte)
    ensures OpOf(b).Some? ==> OpByte(OpOf(b).value) == b
  {}

  /** The flag bits ZF = 1, CF = 2, SF = 4 of the flags byte. */
  datatype Flags = Flags(zf: bool, cf: bool, sf: bool) {
    function Byte(): byte { (if zf then 1 else 0) + (if cf then 2 else 0) + (if sf then 4 else 0) }
  }

  const CLEAR := Flags(false, false, false)

  const MAX_STEPS: nat := 200_000
  const VM_MEM_WORDS: nat := 64

  /** Operand bytes of each opcode. */
  function OperandLen(o: Op): nat {
    if IsAlu(o) || IsShift(o) then 3
    else if IsBranch(o) then 2
    else
      match o
      case NOP | RET => 0
      case HALT => 1
      case CMOV | HASH_ROUND => 3
      case MOV_RI => 9
      case _ => 2
  }

  predicate IsBranch(o: Op) { o.JMP? || o.JZ? || o.JNZ? || o.CALL? }

  predicate IsAlu(o: Op) { o.ADD? || o.SUB? || o.MUL? || o.XOR? || o.AND? || o.OR? }

  predicate IsShift(o: Op) { o.ROL? || o.ROR? || o.SHL? || o.SHR? }

  /** What a register or a memory word holds, and the 32-bit path; the boxes keep bit reasoning local. */
  datatype Cell = Cell(w: Word)
  datatype Path = Path(v: bv32)

  const ZERO := Cell(0)

  // ---- instructions -------------------------------------------------------------------------------

  // A jump target is a byte address in the two engines and an item index in the label machine.
  datatype Instr =
    | Nop
    | MovRI(rd: byte, imm: Cell)
    | MovRR(rd: byte, rs: byte)
    | Load(rd: byte, areg: byte)
    | Store(areg: byte, rs: byte)
    | Alu(op: Op, rd: byte, ra: byte, rb: byte)
    | Not(rd: byte, ra: byte)
    | ShiftBy(op: Op, rd: byte, ra: byte, amount: byte)
    | Cmp(ra: byte, rb: byte)
    | CMov(rd: byte, rs: byte, cond: byte)
    | Jmp(target: nat)
    | Jcc(ifZero: bool, target: nat)
    | Call(target: nat)
    | Ret
    | Hash(rd: byte, ra: byte, rb: byte)
    | MixIn(rd: byte, ra: byte)
    | Halt(code: byte)
    | Unknown

  /** Big-endian word of a byte string; a short string stands for a short slice. */
  function BytesToWord(b: Bytes): Word {
    if b == [] then 0 else AppendByte(BytesToWord(b[..|b| - 1]), b[|b| - 1])
  }

  function AppendByte(w: Word, b: byte): Word { (w << 8) | (b as Word) }

  function BytesToCell(b: Bytes): Cell { Cell(BytesToWord(b)) }

  /** The instruction with opcode `o` and operand bytes `a`. */
  function Parse(o: Op, a: Bytes): Instr
    requires |a| == OperandLen(o)
  {
    if IsAlu(o) then Alu(o, a[0], a[1], a[2])
    else if IsShift(o) then ShiftBy(o, a[0], a[1], a[2])
    else if IsBranch(o) then Branch(o, Number(a))
    else
      match o
      case NOP => Nop
      case MOV_RI => MovRI(a[0], BytesToCell(a[1..]))
      case MOV_RR => MovRR(a[0], a[1])
      case LOAD => Load(a[0], a[1])
      case STORE => Store(a[0], a[1])
      case NOT => Not(a[0], a[1])
      case CMP => Cmp(a[0], a[1])
      case CMOV => CMov(a[0], a[1], a[2])
      case RET => Ret
      case HASH_ROUND => Hash(a[0], a[1], a[2])
      case MIX => MixIn(a[0], a[1])
      case HALT => Halt(a[0])
  }

  function Branch(o: Op, target: nat): Instr
    requires IsBranch(o)
  {
    if o.JMP? then Jmp(target) else if o.CALL? then Call(target) else Jcc(o.JZ?, target)
  }

  datatype Fetched = Fetched(instr: Instr, next: nat)

  /**
   The instruction at `ip` and the address behind it, or None when the engine raises. A strict
   engine refuses an immediate that runs past the code; the other one takes the short slice.
   */
  function Decode(code: Bytes, ip: nat, strict: bool): Option<Fetched> {
    if ip >= |code| then None
    else
      match OpOf(code[ip])
      case None => Some(Fetched(Unknown, ip + 1))
      case Some(o) =>
        var next := ip + 1 + OperandLen(o);
        if next <= |code| then Some(Fetched(Parse(o, code[ip + 1..next]), next))
        else if o.MOV_RI? && !strict && ip + 1 < |code| then
          Some(Fetched(MovRI(code[ip + 1], BytesToCell(code[ip + 2..])), next))
        else None
  }

  // ---- machine states and the effect of one instruction ---------------------------------------------

  datatype Machine = Machine(
    reg: seq<Cell>, mem: seq<Cell>, stack: seq<nat>, flags: Flags, ip: nat, path: Path,
    halted: bool, haltOperand: byte)
  {
    ghost predicate Valid() { |reg| == 16 && |mem| == VM_MEM_WORDS }

    function Get(r: byte): Cell
      requires Valid() && IsReg(r)
    {
      reg[r]
    }

    function Put(r: byte, w: Cell): Machine
      requires Valid() && IsReg(r)
    {
      this.(reg := reg[r := w])
    }
  }

  predicate IsReg(r: byte) { r < 16 }

  function Initial(mem: seq<Cell>): Machine {
    Machine(seq(16, _ => ZERO), mem, [], CLEAR, 0, Path(0x811C9DC5), false, 0)
  }

  function AluWord(o: Op, a: Word, b: Word): Word {
    match o
    case ADD => Plus(a, b)
    case SUB => Minus(a, b)
    case MUL => Times(a, b)
    case XOR => Xor(a, b)
    case AND => Both(a, b)
    case _ => Either(a, b)
  }

  function AluOp(o: Op, a: Cell, b: Cell): Cell { Cell(AluWord(o, a.w, b.w)) }

  function Complement(a: Cell): Cell { Cell(Flip(a.w)) }

  function ShiftWord(o: Op, a: Word, n: nat): Word
    requires n < 64
  {
    match o
    case ROL => Rotl64(a, n)
    case ROR => Rotr64(a, n)
    case SHL => ShlBy(a, n)
    case _ => ShrBy(a, n)
  }

  function ShiftOp(o: Op, a: Cell, amount: byte): Cell { Cell(ShiftWord(o, a.w, amount % 64)) }

  function HashCells(a: Cell, b: Cell): Cell { Cell(HashRound(a.w, b.w)) }

  function MixCells(acc: Cell, val: Cell, rd: nat): Cell { Cell(Mix(acc.w, val.w, rd)) }

  function Below(a: Word, b: Word): bool { a < b }

  function NegativeDifference(a: Word, b: Word): bool { (a - b) >> 63 != 0 }

  function CmpFlags(a: Cell, b: Cell): Flags { Flags(a == b, Below(a.w, b.w), NegativeDifference(a.w, b.w)) }

  /** The condition of a CMOV; None for a code that names no condition. */
  function Condition(f: Flags, cond: byte): Option<bool> {
    match cond
    case 0 => Some(f.zf)
    case 1 => Some(!f.zf)
    case 2 => Some(f.cf)
    case 3 => Some(!f.cf)
    case 4 => Some(f.sf)
    case 5 => Some(!f.sf)
    case _ => None
  }

  /** One branch decision folded into the path; `site` is the low half of the address behind the branch. */
  function FoldBits(path: bv32, site: bv32, taken: bool): bv32 {
    (path * 0x01000193) ^ site ^ Decision(taken)
  }

  function Decision(taken: bool): bv32 { if taken then 1 else 0 }

  function FoldPath(path: Path, address: nat, taken: bool): Path {
    Path(FoldBits(path.v, Site(address), taken))
  }

  /** The low half of an address. */
  function Site(address: nat): bv32 { SiteBits(address % 0x1_0000) }

  function SiteBits(n: nat): bv32
    requires n < 0x1_0000
  { n as bv32 }

  function WordIndex(w: Word): (i: nat)
    ensures i < VM_MEM_WORDS
  { (w % 64) as nat }

  function MemIndex(a: Cell): (i: nat)
    ensures i < VM_MEM_WORDS
  { WordIndex(a.w) }

  /**
   The effect of an instruction on a machine whose ip is already behind it. `site` is the byte
   address that a branch folds into the path. None: a register, a condition or the stack is missing.
   */
  function Exec(i: Instr, m: Machine, site: nat): Option<Machine>
    requires m.Valid()
  {
    match i
    case Nop => Some(m)
    case MovRI(rd, imm) =>
      if IsReg(rd) then Some(m.Put(rd, imm)) else None
    case MovRR(rd, rs) =>
      if IsReg(rd) && IsReg(rs) then Some(m.Put(rd, m.Get(rs))) else None
    case Load(rd, areg) =>
      if IsReg(rd) && IsReg(areg) then Some(m.Put(rd, m.mem[MemIndex(m.Get(areg))])) else None
    case Store(areg, rs) =>
      if IsReg(areg) && IsReg(rs) then Some(m.(mem := m.mem[MemIndex(m.Get(areg)) := m.Get(rs)])) else None
    case Alu(op, rd, ra, rb) =>
      if IsReg(rd) && IsReg(ra) && IsReg(rb) then Some(m.Put(rd, AluOp(op, m.Get(ra), m.Get(rb)))) else None
    case Not(rd, ra) =>
      if IsReg(rd) && IsReg(ra) then Some(m.Put(rd, Complement(m.Get(ra)))) else None
    case ShiftBy(op, rd, ra, n) =>
      if IsReg(rd) && IsReg(ra) then Some(m.Put(rd, ShiftOp(op, m.Get(ra), n))) else None
    case Cmp(ra, rb) =>
      if IsReg(ra) && IsReg(rb) then Some(m.(flags := CmpFlags(m.Get(ra), m.Get(rb)))) else None
    case CMov(rd, rs, cond) =>
      (match Condition(m.flags, cond)
       case None => None
       case Some(taken) =>
         if !taken then Some(m) else if IsReg(rd) && IsReg(rs) then Some(m.Put(rd, m.Get(rs))) else None)
    case Jmp(target) => Some(m.(ip := target))
    case Jcc(ifZero, target) =>
      var taken := ifZero == m.flags.zf;
      Some(m.(path := FoldPath(m.path, site, taken), ip := if taken then target else m.ip))
    case Call(target) => Some(m.(stack := m.stack + [m.ip], ip := target))
    case Ret =>
      if m.stack == [] then None
      else Some(m.(ip := m.stack[|m.stack| - 1], stack := m.stack[..|m.stack| - 1]))
    case Hash(rd, ra, rb) =>
      if IsReg(rd) && IsReg(ra) && IsReg(rb) then Some(m.Put(rd, HashCells(m.Get(ra), m.Get(rb)))) else None
    case MixIn(rd, ra) =>
      if IsReg(rd) && IsReg(ra) then Some(m.Put(rd, MixCells(m.Get(rd), m.Get(ra), rd))) else None
    case Halt(code) => Some(m.(halted := true, haltOperand := code))
    case Unknown => Some(m.(halted := true, haltOperand := 0xFD))
  }

  lemma ExecValid(i: Instr, m: Machine, site: nat)
    requires m.Valid()
    ensures Exec(i, m, site).Some? ==> Exec(i, m, site).value.Valid()
  {}

  // ---- whole runs -----------------------------------------------------------------------------------

  /** One turn of the main loop on a machine that has not halted. */
  function Step(code: Bytes, m: Machine, strict: bool): Option<Machine>
    requires m.Valid()
  {
    match Decode(code, m.ip, strict)
    case None => None
    case Some(f) => Exec(f.instr, m.(ip := f.next), f.next)
  }

  /** The main loop, after `steps` turns: the machine it stops in, or None when an instruction raises. */
  function Run(code: Bytes, m: Machine, steps: nat, strict: bool): Option<Machine>
    requires m.Valid() && steps <= MAX_STEPS
    decreases MAX_STEPS - steps
  {
    if m.halted then Some(m)
    else if steps >= MAX_STEPS then Some(m.(haltOperand := 0xEE))
    else
      match Step(code, m, strict)
      case None => None
      case Some(m') =>
        StepValid(code, m, strict);
        Run(code, m', steps + 1, strict)
  }

  lemma StepValid(code: Bytes, m: Machine, strict: bool)
    requires m.Valid()
    ensures Step(code, m, strict).Some? ==> Step(code, m, strict).value.Valid()
  {
    var f := Decode(code, m.ip, strict);
    if f.Some? { ExecValid(f.value.instr, m.(ip := f.value.next), f.value.next); }
  }

  /** `Run` unrolled once. */
  lemma RunTurn(code: Bytes, m: Machine, steps: nat, strict: bool)
    requires m.Valid() && steps <= MAX_STEPS
    ensures m.halted ==> Run(code, m, steps, strict) == Some(m)
    ensures !m.halted && steps == MAX_STEPS ==> Run(code, m, steps, strict) == Some(m.(haltOperand := 0xEE))
    ensures !m.halted && steps < MAX_STEPS ==>
              var next := Step(code, m, strict);
              && (next.None? ==> Run(code, m, steps, strict) == None)
              && (next.Some? ==>
                    && next.value.Valid()
                    && Run(code, m, steps, strict) == Run(code, next.value, steps + 1, strict))
  {
    StepValid(code, m, strict);
    hide Step;
  }

  lemma RunValid(code: Bytes, m: Machine, steps: nat, strict: bool)
    requires m.Valid() && steps <= MAX_STEPS
    ensures Run(code, m, steps, strict).Some? ==> Run(code, m, steps, strict).value.Valid()
    decreases MAX_STEPS - steps
  {
    hide Step;
    RunTurn(code, m, steps, strict);
    if !m.halted && steps < MAX_STEPS && Step(code, m, strict).Some? {
      RunValid(code, Step(code, m, strict).value, steps + 1, strict);
    }
  }

  lemma StepPastEnd(code: Bytes, m: Machine, strict: bool)
    requires m.Valid() && m.ip >= |code|
    ensures Step(code, m, strict) == None
  {}

  // ---- the structured output --------------------------------------------------------------------------

  datatype VmResult = VmResult(digest: Bytes, stateHash: Bytes, pathId: bv32, haltCode: bv32)

  function WordBytes(w: Word): (b: Bytes)
    ensures |b| == 8
  { BigEndian(w as nat, 8) }

  function Be32(w: bv32): Bytes { BigEndian(w as nat, 4) }

  function CellsBytes(cs: seq<Cell>): Bytes {
    if cs == [] then [] else CellsBytes(cs[..|cs| - 1]) + WordBytes(cs[|cs| - 1].w)
  }

  function AddressesBytes(s: seq<nat>): Bytes {
    if s == [] then [] else AddressesBytes(s[..|s| - 1]) + BigEndian(s[|s| - 1], 8)
  }

  function StateBytes(m: Machine): Bytes {
    CellsBytes(m.reg) + AddressesBytes(m.stack) + [m.flags.Byte()] + BigEndian(m.ip % 0x1_0000, 2) + Be32(m.path.v)
  }

  /** The operand of the HALT with the low byte of the path mixed in. */
  function HaltCode(operand: byte, path: Path): bv32 { HaltBits(operand as bv32, path.v) }

  function HaltBits(operand: bv32, path: bv32): bv32 { operand ^ (path & 0xFF) }

  function Finish(p: Primitives, m: Machine): VmResult
    requires m.Valid() && Lawful(p)
  {
    VmResult(
      CellsBytes(m.reg[12..16]),
      Blake2b(p, StateBytes(m), [], 32),
      m.path.v,
      HaltCode(m.haltOperand, m.path))
  }

  /** What a run from packed memory hands back; None when the engine raises. */
  function ResultOf(p: Primitives, code: Bytes, memory: seq<Cell>, strict: bool): Option<VmResult>
    requires Lawful(p) && |memory| == VM_MEM_WORDS
  {
    match Run(code, Initial(memory), 0, strict)
    case None => None
    case Some(m) =>
      RunValid(code, Initial(memory), 0, strict);
      Some(Finish(p, m))
  }
}
