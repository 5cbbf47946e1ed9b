/** The client's engine (client/src/vm/vm.cpp): handlers reached through a per-session permuted table. */
module VmClient {
  import opened ByteStrings
  import opened Crypto
  import opened Isa
  import opened Decoding
  import opened Dispatch

  datatype Handler =
    | NopHandler | MovRIHandler | MovRRHandler | LoadHandler | StoreHandler | AluHandler | NotHandler
    | ShiftHandler | CmpHandler | CMovHandler
    | JmpHandler | JccHandler | CallHandler | RetHandler | HashHandler | MixHandler | HaltHandler | UnknownHandler

  /** The handler an opcode is registered with. */
  function HandlerFor(o: Op): Handler {
    match o
    case NOP => NopHandler
    case MOV_RI => MovRIHandler
    case MOV_RR => MovRRHandler
    case LOAD => LoadHandler
    case STORE => StoreHandler
    case ADD | SUB | MUL | XOR | AND | OR => AluHandler
    case NOT => NotHandler
    case ROL | ROR | SHL | SHR => ShiftHandler
    case CMP => CmpHandler
    case CMOV => CMovHandler
    case JMP => JmpHandler
    case JZ | JNZ => JccHandler
    case CALL => CallHandler
    case RET => RetHandler
    case HASH_ROUND => HashHandler
    case MIX => MixHandler
    case HALT => HaltHandler
  }

  /** The registrations of `build_dispatch_table`, in order. */
  const REGISTERED: seq<Op> := [
    NOP, MOV_RI, MOV_RR, LOAD, STORE, ADD, SUB, MUL, XOR, AND, OR, NOT, ROL, ROR, SHL, SHR,
    CMP, CMOV, JMP, JZ, JNZ, CALL, RET, HASH_ROUND, MIX, HALT]

  lemma AllRegistered(o: Op)
    ensures o in REGISTERED
  {
    var k := match o
      case NOP => 0 case MOV_RI => 1 case MOV_RR => 2 case LOAD => 3 case STORE => 4
      case ADD => 5 case SUB => 6 case MUL => 7 case XOR => 8 case AND => 9 case OR => 10 case NOT => 11
      case ROL => 12 case ROR => 13 case SHL => 14 case SHR => 15 case CMP => 16 case CMOV => 17
      case JMP => 18 case JZ => 19 case JNZ => 20 case CALL => 21 case RET => 22 case HASH_ROUND => 23
      case MIX => 24 case HALT => 25;
    assert REGISTERED[k] == o;
  }

  /** The handler a byte has to reach. */
  function HandlerOf(b: byte, registered: seq<Op>): Handler {
    match OpOf(b)
    case None => UnknownHandler
    case Some(o) => if o in registered then HandlerFor(o) else UnknownHandler
  }

  /** A handler other than h_unknown is reached by its own opcodes only. */
  lemma ReachedBy(b: byte)
    ensures var h := HandlerOf(b, REGISTERED);
            && (h == UnknownHandler <==> OpOf(b).None?)
            && (OpOf(b).Some? ==>
                  var o := OpOf(b).value;
                  && (h == NopHandler ==> o == NOP) && (h == MovRIHandler ==> o == MOV_RI)
                      && (h == MovRRHandler ==> o == MOV_RR)
                  && (h == LoadHandler ==> o == LOAD) && (h == StoreHandler ==> o == STORE)
                      && (h == AluHandler ==> IsAlu(o))
                  && (h == NotHandler ==> o == NOT) && (h == ShiftHandler ==> IsShift(o))
                      && (h == CmpHandler ==> o == CMP)
                  && (h == CMovHandler ==> o == CMOV) && (h == JmpHandler ==> o == JMP)
                      && (h == JccHandler ==> o == JZ || o == JNZ)
                  && (h == CallHandler ==> o == CALL) && (h == RetHandler ==> o == RET)
                      && (h == HashHandler ==> o == HASH_ROUND)
                  && (h == MixHandler ==> o == MIX) && (h == HaltHandler ==> o == HALT))
  {
    hide OpOf, REGISTERED;
    if OpOf(b).Some? { AllRegistered(OpOf(b).value); }
  }

  // The client multiplies in 64 bits and truncates.
  function FoldBits64(path: bv32, site: bv32, taken: bool): bv32 {
    ((((path as bv64) * 0x01000193) ^ (site as bv64) ^ (Decision(taken) as bv64)) & 0xFFFF_FFFF) as bv32
  }

  lemma FoldTruncates(path: bv32, site: bv32, taken: bool)
    ensures FoldBits64(path, site, taken) == FoldBits(path, site, taken)
  {
    hide Decision;
  }

  function FoldPath64(path: Path, address: nat, taken: bool): Path {
    Path(FoldBits64(path.v, Site(address), taken))
  }

  lemma FoldPathAgrees(path: Path, address: nat, taken: bool)
    ensures FoldPath64(path, address, taken) == FoldPath(path, address, taken)
  {
    hide FoldBits64, FoldBits;
    FoldTruncates(path.v, Site(address), taken);
  }

  class Vm {
    const code: Bytes
    const reg: array<Cell>
    const mem: array<Cell>
    const perm: array<nat>
    const table: array<Handler>
    var stack: seq<nat>
    var flags: Flags
    var ip: nat
    var path: Path
    var halted: bool
    var haltOperand: byte

    ghost predicate Valid()
      reads perm, table
    {
      && Shape()
      && perm.Length == table.Length == 256
      && (forall b: byte :: perm[b] < 256 && table[perm[b]] == HandlerOf(b, REGISTERED))
    }

    ghost function View(): Machine
      reads this, reg, mem
    {
      Machine(reg[..], mem[..], stack, flags, ip, path, halted, haltOperand)
    }

    constructor (p: Primitives, code: Bytes, memory: seq<Cell>, nonce: Bytes)
      requires Lawful(p) && |memory| == VM_MEM_WORDS
      ensures this.code == code && Valid() && View() == Initial(memory)
      ensures fresh(this.reg) && fresh(this.mem)
    {
      this.code := code;
      reg := new Cell[16](_ => ZERO);
      mem := new Cell[VM_MEM_WORDS](i requires 0 <= i < VM_MEM_WORDS => memory[i]);
      var shuffled := HandlerPermutation(p, nonce);
      var slots := new Handler[256](_ => UnknownHandler);
      perm := shuffled;
      table := slots;
      stack := [];
      flags := CLEAR;
      ip := 0;
      path := Path(0x811C9DC5);
      halted := false;
      haltOperand := 0;
      new;
      BuildDispatchTable(perm, table);
    }

    /** Every byte ends up behind its own slot, because the slots are a permutation. */
    static method BuildDispatchTable(perm: array<nat>, table: array<Handler>)
      requires perm.Length == table.Length == 256 && IsPermutation(perm[..])
      modifies table
      ensures forall b: byte :: perm[b] < 256 && table[perm[b]] == HandlerOf(b, REGISTERED)
    {
      for k := 0 to 256
        invariant forall i :: 0 <= i < k ==> table[i] == UnknownHandler
      {
        table[k] := UnknownHandler;
      }
      for k := 0 to |REGISTERED|
        invariant forall b: byte :: perm[..][b] < 256 && table[perm[..][b]] == HandlerOf(b, REGISTERED[..k])
      {
        Register(perm, table, k);
      }
      assert REGISTERED[..|REGISTERED|] == REGISTERED;
    }

    static method Register(perm: array<nat>, table: array<Handler>, k: nat)
      requires perm.Length == table.Length == 256 && IsPermutation(perm[..]) && k < |REGISTERED|
      requires forall b: byte :: perm[..][b] < 256 && table[perm[..][b]] == HandlerOf(b, REGISTERED[..k])
      modifies table
      ensures forall b: byte :: perm[..][b] < 256 && table[perm[..][b]] == HandlerOf(b, REGISTERED[..k + 1])
    {
      hide OpOf, OpByte, HandlerFor;
      var o := REGISTERED[k];
      OpRoundTrip(o);
      assert REGISTERED[..k + 1] == REGISTERED[..k] + [o];
      table[perm[OpByte(o)]] := HandlerFor(o);
      forall b: byte
        ensures table[perm[..][b]] == HandlerOf(b, REGISTERED[..k + 1])
      {
        OpOfInjective(b);
      }
    }

    // ---- fetch ------------------------------------------------------------------------------------------

    method U8() returns (r: Option<byte>)
      modifies this`ip
      ensures r.Some? == (old(ip) < |code|)
      ensures r.Some? ==> r.value == code[old(ip)] && ip == old(ip) + 1
    {
      if ip >= |code| { return None; }
      r := Some(code[ip]);
      ip := ip + 1;
    }

    /** n operand bytes, fetched one at a time. */
    method Operands(n: nat) returns (r: Option<Bytes>)
      requires ip <= |code|
      modifies this`ip
      ensures r == if old(ip) + n <= |code| then Some(code[old(ip)..old(ip) + n]) else None
      ensures r.Some? ==> ip == old(ip) + n
    {
      var a := [];
      while |a| < n
        invariant ip == old(ip) + |a| <= |code|
        invariant a == code[old(ip)..ip] && |a| <= n
      {
        var b :- U8();
        a := a + [b];
      }
      r := Some(a);
    }

    method U16() returns (r: Option<nat>)
      modifies this`ip
      ensures r.Some? == (old(ip) + 2 <= |code|)
      ensures r.Some? ==> r.value == Number(code[old(ip)..old(ip) + 2]) && ip == old(ip) + 2
    {
      if ip + 2 > |code| { return None; }
      NumberOfTwo(code[ip..ip + 2]);
      r := Some((code[ip] as nat) * 256 + code[ip + 1]);
      ip := ip + 2;
    }

    method U64() returns (r: Option<Cell>)
      modifies this`ip
      ensures r.Some? == (old(ip) + 8 <= |code|)
      ensures r.Some? ==> r.value == BytesToCell(code[old(ip)..old(ip) + 8]) && ip == old(ip) + 8
    {
      if ip + 8 > |code| { return None; }
      r := Some(BytesToCell(code[ip..ip + 8]));
      ip := ip + 8;
    }

    method SetReg(i: byte, v: Cell)
      requires i < reg.Length
      modifies reg
      ensures reg[..] == old(reg[..])[i := v]
    {
      reg[i] := v;
    }

    method SetMem(i: nat, v: Cell)
      requires i < mem.Length
      modifies mem
      ensures mem[..] == old(mem[..])[i := v]
    {
      mem[i] := v;
    }

    // ---- handlers ---------------------------------------------------------------------------------------

    /** Opcode `o` has just been fetched in machine m, so ip is one byte behind it. */
    ghost predicate Fetched(m: Machine, o: Op)
      reads this, reg, mem
    {
      Shape() && m == View() && ip > 0 && At(code, ip - 1, o)
    }

    ghost predicate Shape() { reg.Length == 16 && mem.Length == VM_MEM_WORDS && reg != mem }

    /** The machine that executing that opcode has to end in; None when the handler has to throw. */
    ghost function Expected(m: Machine): Option<Machine>
      requires m.Valid() && m.ip > 0
    {
      Step(code, m.(ip := m.ip - 1), true)
    }

    method HNop(ghost m: Machine) returns (r: Option<()>)
      requires Fetched(m, NOP)
      modifies this, reg, mem
      ensures Agrees(r, Expected(m), View())
    {
      hide Step, OpOf, Number, BytesToCell, MemIndex, AluOp, Complement, ShiftOp, CmpFlags, Condition, FoldPath,
           FoldPath64,
        HashCells, MixCells;
      StepNop(code, m.(ip := m.ip - 1), true);
      r := Some(());
    }

    method HMovRI(ghost m: Machine) returns (r: Option<()>)
      requires Fetched(m, MOV_RI)
      modifies this, reg, mem
      ensures Agrees(r, Expected(m), View())
    {
      hide Step, OpOf, Number, BytesToCell, MemIndex, AluOp, Complement, ShiftOp, CmpFlags, Condition, FoldPath,
           FoldPath64,
        HashCells, MixCells;
      StepMovRI(code, m.(ip := m.ip - 1), true);
      var rd :- U8();
      var imm :- U64();
      if rd >= 16 { return None; }
      SetReg(rd, imm);
      r := Some(());
    }

    method HMovRR(ghost m: Machine) returns (r: Option<()>)
      requires Fetched(m, MOV_RR)
      modifies this, reg, mem
      ensures Agrees(r, Expected(m), View())
    {
      hide Step, OpOf, Number, BytesToCell, MemIndex, AluOp, Complement, ShiftOp, CmpFlags, Condition, FoldPath,
           FoldPath64,
        HashCells, MixCells;
      StepMovRR(code, m.(ip := m.ip - 1), true);
      var a :- Operands(2);
      if a[0] >= 16 || a[1] >= 16 { return None; }
      SetReg(a[0], reg[a[1]]);
      r := Some(());
    }

    method HLoad(ghost m: Machine) returns (r: Option<()>)
      requires Fetched(m, LOAD)
      modifies this, reg, mem
      ensures Agrees(r, Expected(m), View())
    {
      hide Step, OpOf, Number, BytesToCell, MemIndex, AluOp, Complement, ShiftOp, CmpFlags, Condition, FoldPath,
           FoldPath64,
        HashCells, MixCells;
      StepLoad(code, m.(ip := m.ip - 1), true);
      var a :- Operands(2);
      if a[0] >= 16 || a[1] >= 16 { return None; }
      SetReg(a[0], mem[MemIndex(reg[a[1]])]);
      r := Some(());
    }

    method HStore(ghost m: Machine) returns (r: Option<()>)
      requires Fetched(m, STORE)
      modifies this, reg, mem
      ensures Agrees(r, Expected(m), View())
    {
      hide Step, OpOf, Number, BytesToCell, MemIndex, AluOp, Complement, ShiftOp, CmpFlags, Condition, FoldPath,
           FoldPath64,
        HashCells, MixCells;
      StepStore(code, m.(ip := m.ip - 1), true);
      var a :- Operands(2);
      if a[0] >= 16 || a[1] >= 16 { return None; }
      SetMem(MemIndex(reg[a[0]]), reg[a[1]]);
      r := Some(());
    }

    method HAlu3(ghost m: Machine, o: Op) returns (r: Option<()>)
      requires IsAlu(o) && Fetched(m, o)
      modifies this, reg, mem
      ensures Agrees(r, Expected(m), View())
    {
      hide Step, OpOf, Number, BytesToCell, MemIndex, AluOp, Complement, ShiftOp, CmpFlags, Condition, FoldPath,
           FoldPath64,
        HashCells, MixCells;
      StepAlu(code, m.(ip := m.ip - 1), o, true);
      var a :- Operands(3);
      if a[0] >= 16 || a[1] >= 16 || a[2] >= 16 { return None; }
      SetReg(a[0], AluOp(o, reg[a[1]], reg[a[2]]));
      r := Some(());
    }

    method HNot(ghost m: Machine) returns (r: Option<()>)
      requires Fetched(m, NOT)
      modifies this, reg, mem
      ensures Agrees(r, Expected(m), View())
    {
      hide Step, OpOf, Number, BytesToCell, MemIndex, AluOp, Complement, ShiftOp, CmpFlags, Condition, FoldPath,
           FoldPath64,
        HashCells, MixCells;
      StepNot(code, m.(ip := m.ip - 1), true);
      var a :- Operands(2);
      if a[0] >= 16 || a[1] >= 16 { return None; }
      SetReg(a[0], Complement(reg[a[1]]));
      r := Some(());
    }

    method HShift(ghost m: Machine, o: Op) returns (r: Option<()>)
      requires IsShift(o) && Fetched(m, o)
      modifies this, reg, mem
      ensures Agrees(r, Expected(m), View())
    {
      hide Step, OpOf, Number, BytesToCell, MemIndex, AluOp, Complement, ShiftOp, CmpFlags, Condition, FoldPath,
           FoldPath64,
        HashCells, MixCells;
      StepShift(code, m.(ip := m.ip - 1), o, true);
      var a :- Operands(3);
      if a[0] >= 16 || a[1] >= 16 { return None; }
      SetReg(a[0], ShiftOp(o, reg[a[1]], a[2]));
      r := Some(());
    }

    method HCmp(ghost m: Machine) returns (r: Option<()>)
      requires Fetched(m, CMP)
      modifies this, reg, mem
      ensures Agrees(r, Expected(m), View())
    {
      hide Step, OpOf, Number, BytesToCell, MemIndex, AluOp, Complement, ShiftOp, CmpFlags, Condition, FoldPath,
           FoldPath64,
        HashCells, MixCells;
      StepCmp(code, m.(ip := m.ip - 1), true);
      var a :- Operands(2);
      if a[0] >= 16 || a[1] >= 16 { return None; }
      flags := CmpFlags(reg[a[0]], reg[a[1]]);
      r := Some(());
    }

    method HCmov(ghost m: Machine) returns (r: Option<()>)
      requires Fetched(m, CMOV)
      modifies this, reg, mem
      ensures Agrees(r, Expected(m), View())
    {
      hide Step, OpOf, Number, BytesToCell, MemIndex, AluOp, Complement, ShiftOp, CmpFlags, Condition, FoldPath,
           FoldPath64,
        HashCells, MixCells;
      StepCMov(code, m.(ip := m.ip - 1), true);
      var a :- Operands(3);
      var taken :- Condition(flags, a[2]);
      if taken {
        if a[0] >= 16 || a[1] >= 16 { return None; }
        SetReg(a[0], reg[a[1]]);
      }
      r := Some(());
    }

    method HJmp(ghost m: Machine) returns (r: Option<()>)
      requires Fetched(m, JMP)
      modifies this, reg, mem
      ensures Agrees(r, Expected(m), View())
    {
      hide Step, OpOf, Number, BytesToCell, MemIndex, AluOp, Complement, ShiftOp, CmpFlags, Condition, FoldPath,
           FoldPath64,
        HashCells, MixCells;
      StepJmp(code, m.(ip := m.ip - 1), true);
      var addr :- U16();
      ip := addr;
      r := Some(());
    }

    method HJcc(ghost m: Machine, o: Op) returns (r: Option<()>)
      requires (o.JZ? || o.JNZ?) && Fetched(m, o)
      modifies this, reg, mem
      ensures Agrees(r, Expected(m), View())
    {
      hide Step, OpOf, Number, BytesToCell, MemIndex, AluOp, Complement, ShiftOp, CmpFlags, Condition, FoldPath,
           FoldPath64,
        HashCells, MixCells;
      StepJcc(code, m.(ip := m.ip - 1), o, true);
      var addr :- U16();
      var taken := if o.JZ? then flags.zf else !flags.zf;
      FoldPathAgrees(path, ip, taken);
      path := FoldPath64(path, ip, taken);
      if taken { ip := addr; }
      r := Some(());
    }

    method HCall(ghost m: Machine) returns (r: Option<()>)
      requires Fetched(m, CALL)
      modifies this, reg, mem
      ensures Agrees(r, Expected(m), View())
    {
      hide Step, OpOf, Number, BytesToCell, MemIndex, AluOp, Complement, ShiftOp, CmpFlags, Condition, FoldPath,
           FoldPath64,
        HashCells, MixCells;
      StepCall(code, m.(ip := m.ip - 1), true);
      var addr :- U16();
      stack := stack + [ip];
      ip := addr;
      r := Some(());
    }

    method HRet(ghost m: Machine) returns (r: Option<()>)
      requires Fetched(m, RET)
      modifies this, reg, mem
      ensures Agrees(r, Expected(m), View())
    {
      hide Step, OpOf, Number, BytesToCell, MemIndex, AluOp, Complement, ShiftOp, CmpFlags, Condition, FoldPath,
           FoldPath64,
        HashCells, MixCells;
      StepRet(code, m.(ip := m.ip - 1), true);
      if |stack| == 0 { return None; }
      ip := stack[|stack| - 1];
      stack := stack[..|stack| - 1];
      r := Some(());
    }

    method HHash(ghost m: Machine) returns (r: Option<()>)
      requires Fetched(m, HASH_ROUND)
      modifies this, reg, mem
      ensures Agrees(r, Expected(m), View())
    {
      hide Step, OpOf, Number, BytesToCell, MemIndex, AluOp, Complement, ShiftOp, CmpFlags, Condition, FoldPath,
           FoldPath64,
        HashCells, MixCells;
      StepHash(code, m.(ip := m.ip - 1), true);
      var a :- Operands(3);
      if a[0] >= 16 || a[1] >= 16 || a[2] >= 16 { return None; }
      SetReg(a[0], HashCells(reg[a[1]], reg[a[2]]));
      r := Some(());
    }

    method HMix(ghost m: Machine) returns (r: Option<()>)
      requires Fetched(m, MIX)
      modifies this, reg, mem
      ensures Agrees(r, Expected(m), View())
    {
      hide Step, OpOf, Number, BytesToCell, MemIndex, AluOp, Complement, ShiftOp, CmpFlags, Condition, FoldPath,
           FoldPath64,
        HashCells, MixCells;
      StepMix(code, m.(ip := m.ip - 1), true);
      var a :- Operands(2);
      if a[0] >= 16 || a[1] >= 16 { return None; }
      assert reg[a[0]] == m.reg[a[0]] && reg[a[1]] == m.reg[a[1]];
      SetReg(a[0], MixCells(reg[a[0]], reg[a[1]], a[0]));
      r := Some(());
    }

    method HHalt(ghost m: Machine) returns (r: Option<()>)
      requires Fetched(m, HALT)
      modifies this, reg, mem
      ensures Agrees(r, Expected(m), View())
    {
      hide Step, OpOf, Number, BytesToCell, MemIndex, AluOp, Complement, ShiftOp, CmpFlags, Condition, FoldPath,
           FoldPath64,
        HashCells, MixCells;
      StepHalt(code, m.(ip := m.ip - 1), true);
      haltOperand :- U8();
      halted := true;
      r := Some(());
    }

    method HUnknown(ghost m: Machine) returns (r: Option<()>)
      requires Shape() && m == View() && 0 < ip <= |code| && OpOf(code[ip - 1]).None?
      modifies this
      ensures Agrees(r, Expected(m), View())
    {
      hide Step, OpOf;
      StepUnknown(code, m.(ip := m.ip - 1), true);
      haltOperand := 0xFD;
      halted := true;
      r := Some(());
    }

    /** The handler in the slot of `op`. */
    method Lookup(op: byte) returns (h: Handler)
      requires Valid()
      ensures h == HandlerOf(op, REGISTERED)
    {
      h := table[perm[op]];
    }

    method Invoke(ghost m: Machine, h: Handler, op: byte) returns (r: Option<()>)
      requires Shape() && m == View() && 0 < ip <= |code| && code[ip - 1] == op
      requires h == HandlerOf(op, REGISTERED)
      modifies this, reg, mem
      ensures Agrees(r, Expected(m), View())
    {
      hide Step, OpOf, HandlerOf, REGISTERED;
      ReachedBy(op);
      match h {
        case NopHandler => r := HNop(m);
        case MovRIHandler => r := HMovRI(m);
        case MovRRHandler => r := HMovRR(m);
        case LoadHandler => r := HLoad(m);
        case StoreHandler => r := HStore(m);
        case AluHandler => r := HAlu3(m, OpOf(op).value);
        case NotHandler => r := HNot(m);
        case ShiftHandler => r := HShift(m, OpOf(op).value);
        case CmpHandler => r := HCmp(m);
        case CMovHandler => r := HCmov(m);
        case JmpHandler => r := HJmp(m);
        case JccHandler => r := HJcc(m, OpOf(op).value);
        case CallHandler => r := HCall(m);
        case RetHandler => r := HRet(m);
        case HashHandler => r := HHash(m);
        case MixHandler => r := HMix(m);
        case HaltHandler => r := HHalt(m);
        case UnknownHandler => r := HUnknown(m);
      }
    }

    /** The indirect call through the permuted table. */
    method Dispatch(ghost m: Machine, op: byte) returns (r: Option<()>)
      requires Valid() && m == View() && 0 < ip <= |code| && code[ip - 1] == op
      modifies this, reg, mem
      ensures Valid()
      ensures Agrees(r, Expected(m), View())
    {
      hide Step, OpOf, HandlerOf, REGISTERED;
      var h := Lookup(op);
      r := Invoke(m, h, op);
    }

    // ---- the main loop and the output ----------------------------------------------------------------

    /** Whatever the nonce, and so the permutation: the run of the reference semantics, or an exception. */
    method Run() returns (r: Option<()>)
      requires Valid()
      modifies this, reg, mem
      ensures Valid()
      ensures Agrees(r, Isa.Run(code, old(View()), 0, true), View())
    {
      hide Isa.Run, Step;
      var steps := 0;
      ghost var start := View();
      while !halted
        invariant Valid() && steps <= MAX_STEPS
        invariant Isa.Run(code, View(), steps, true) == Isa.Run(code, start, 0, true)
        decreases MAX_STEPS - steps
      {
        ghost var m := View();
        RunTurn(code, m, steps, true);
        if steps >= MAX_STEPS {
          haltOperand := 0xEE;
          return Some(());
        }
        steps := steps + 1;
        if ip >= |code| { StepPastEnd(code, m, true); }
        var op :- U8();
        r := Dispatch(View(), op);
        if r.None? { return; }
      }
      RunTurn(code, View(), steps, true);
      r := Some(());
    }

    method Finish(p: Primitives) returns (out: VmResult)
      requires Valid() && Lawful(p)
      ensures out == Isa.Finish(p, View())
    {
      hide CellsBytes, AddressesBytes, Be32;
      var state := CellsBytes(reg[..]) + AddressesBytes(stack) + [flags.Byte()] + BigEndian(ip % 0x1_0000,
          2) + Be32(path.v);
      out := VmResult(CellsBytes(reg[12..16]), Blake2b(p, state, [], 32), path.v,
                      (haltOperand as bv32) ^ (path.v & 0xFF));
    }
  }

  /** Construct, run and read out, as `run_vm` does once the memory is packed. */
  method RunVm(p: Primitives, code: Bytes, memory: seq<Cell>, nonce: Bytes) returns (r: Option<VmResult>)
    requires Lawful(p) && |memory| == VM_MEM_WORDS
    ensures r == ResultOf(p, code, memory, true)
  {
    hide Isa.Run, Isa.Finish, Lawful;
    var vm := new Vm(p, code, memory, nonce);
    RunValid(code, Initial(memory), 0, true);
    var _ :- vm.Run();
    var out := vm.Finish(p);
    r := Some(out);
  }
}
