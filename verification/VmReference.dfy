/** The server's engine (server/app/vm_reference.py): a class whose `_exec` is one direct switch. */
module VmReference {
  import opened ByteStrings
  import opened Crypto
  import opened Isa
  import opened Decoding

  class Vm {
    const code: Bytes
    var mem: seq<Cell>
    var reg: seq<Cell>
    var stack: seq<nat>
    var flags: Flags
    var ip: nat
    var path: Path
    var halted: bool
    var haltOperand: byte

    ghost predicate Valid() reads this { |reg| == 16 && |mem| == VM_MEM_WORDS }

    ghost function View(): Machine
      reads this
    {
      Machine(reg, mem, stack, flags, ip, path, halted, haltOperand)
    }

    constructor (code: Bytes, mem: seq<Cell>)
      requires |mem| == VM_MEM_WORDS
      ensures this.code == code && Valid() && View() == Initial(mem)
    {
      this.code := code;
      this.mem := mem;
      reg := seq(16, _ => ZERO);
      stack := [];
      flags := CLEAR;
      ip := 0;
      path := Path(0x811C9DC5);
      halted := false;
      haltOperand := 0;
    }

    // ---- flag helpers ---------------------------------------------------------------------------------

    method Cond(code: byte) returns (r: Option<bool>)
      ensures r == Condition(flags, code)
    {
      var table := [flags.zf, !flags.zf, flags.cf, !flags.cf, flags.sf, !flags.sf];
      if code >= |table| { return None; }
      r := Some(table[code]);
    }

    method FoldBranch(taken: bool)
      modifies this`path
      ensures path == FoldPath(old(path), ip, taken)
    {
      path := FoldPath(path, ip, taken);
    }

    // ---- fetch helpers ------------------------------------------------------------------------------

    method U8() returns (r: Option<byte>)
      modifies this`ip
      ensures r.Some? == (old(ip) < |code|)
      ensures r.Some? ==> r.value == code[old(ip)] && ip == old(ip) + 1
    {
      if ip >= |code| { return None; }
      r := Some(code[ip]);
      ip := ip + 1;
    }

    /** n operand bytes, fetched one at a time. */
    method Operands(n: nat) returns (r: Option<Bytes>)
      requires ip <= |code|
      modifies this`ip
      ensures r == if old(ip) + n <= |code| then Some(code[old(ip)..old(ip) + n]) else None
      ensures r.Some? ==> ip == old(ip) + n
    {
      var a := [];
      while |a| < n
        invariant ip == old(ip) + |a| <= |code|
        invariant a == code[old(ip)..ip] && |a| <= n
      {
        var b :- U8();
        a := a + [b];
      }
      r := Some(a);
    }

    method U16() returns (r: Option<nat>)
      modifies this`ip
      ensures r.Some? == (old(ip) + 1 < |code|)
      ensures r.Some? ==> r.value == Number(code[old(ip)..old(ip) + 2]) && ip == old(ip) + 2
    {
      if ip + 1 >= |code| { return None; }
      NumberOfTwo(code[ip..ip + 2]);
      r := Some((code[ip] as nat) * 256 + code[ip + 1]);
      ip := ip + 2;
    }

    method U64() returns (v: Cell)
      modifies this`ip
      ensures ip == old(ip) + 8
      ensures old(ip) <= |code| ==>
        v == BytesToCell(code[old(ip)..if old(ip) + 8 <= |code| then old(ip) + 8 else |code|])
    {
      var from := if ip <= |code| then ip else |code|;
      v := BytesToCell(code[from..if ip + 8 <= |code| then ip + 8 else |code|]);
      ip := ip + 8;
    }

    // ---- `_exec`: the switch, one method per case --------------------------------------------------

    /** Opcode `o` has just been fetched in machine m, so ip is one byte behind it. */
    ghost predicate Fetched(m: Machine, o: Op)
      reads this
    {
      Valid() && m == View() && ip > 0 && At(code, ip - 1, o)
    }

    /** The machine that executing that opcode has to end in; None when it has to raise. */
    ghost function Expected(m: Machine): Option<Machine>
      requires m.Valid() && m.ip > 0
    {
      Step(code, m.(ip := m.ip - 1), false)
    }

    method ExecMovRI(ghost m: Machine) returns (r: Option<()>)
      requires Fetched(m, MOV_RI)
      modifies this
      ensures Agrees(r, Expected(m), View())
    {
      hide Step, OpOf, Number, BytesToCell, MemIndex, AluOp, Complement, ShiftOp, CmpFlags, Condition, FoldPath,
        HashCells, MixCells;
      StepMovRI(code, m.(ip := m.ip - 1), false);
      var a :- Operands(1);
      var imm := U64();
      if a[0] >= 16 { return None; }
      reg := reg[a[0] := imm];
      r := Some(());
    }

    method ExecMovRR(ghost m: Machine) returns (r: Option<()>)
      requires Fetched(m, MOV_RR)
      modifies this
      ensures Agrees(r, Expected(m), View())
    {
      hide Step, OpOf, Number, BytesToCell, MemIndex, AluOp, Complement, ShiftOp, CmpFlags, Condition, FoldPath,
        HashCells, MixCells;
      StepMovRR(code, m.(ip := m.ip - 1), false);
      var a :- Operands(2);
      if a[0] >= 16 || a[1] >= 16 { return None; }
      reg := reg[a[0] := reg[a[1]]];
      r := Some(());
    }

    method ExecLoad(ghost m: Machine) returns (r: Option<()>)
      requires Fetched(m, LOAD)
      modifies this
      ensures Agrees(r, Expected(m), View())
    {
      hide Step, OpOf, Number, BytesToCell, MemIndex, AluOp, Complement, ShiftOp, CmpFlags, Condition, FoldPath,
        HashCells, MixCells;
      StepLoad(code, m.(ip := m.ip - 1), false);
      var a :- Operands(2);
      if a[0] >= 16 || a[1] >= 16 { return None; }
      reg := reg[a[0] := mem[MemIndex(reg[a[1]])]];
      r := Some(());
    }

    method ExecStore(ghost m: Machine) returns (r: Option<()>)
      requires Fetched(m, STORE)
      modifies this
      ensures Agrees(r, Expected(m), View())
    {
      hide Step, OpOf, Number, BytesToCell, MemIndex, AluOp, Complement, ShiftOp, CmpFlags, Condition, FoldPath,
        HashCells, MixCells;
      StepStore(code, m.(ip := m.ip - 1), false);
      var a :- Operands(2);
      if a[0] >= 16 || a[1] >= 16 { return None; }
      mem := mem[MemIndex(reg[a[0]]) := reg[a[1]]];
      r := Some(());
    }

    method ExecAlu(ghost m: Machine, o: Op) returns (r: Option<()>)
      requires IsAlu(o) && Fetched(m, o)
      modifies this
      ensures Agrees(r, Expected(m), View())
    {
      hide Step, OpOf, Number, BytesToCell, MemIndex, AluOp, Complement, ShiftOp, CmpFlags, Condition, FoldPath,
        HashCells, MixCells;
      StepAlu(code, m.(ip := m.ip - 1), o, false);
      var a :- Operands(3);
      if a[0] >= 16 || a[1] >= 16 || a[2] >= 16 { return None; }
      reg := reg[a[0] := AluOp(o, reg[a[1]], reg[a[2]])];
      r := Some(());
    }

    method ExecNot(ghost m: Machine) returns (r: Option<()>)
      requires Fetched(m, NOT)
      modifies this
      ensures Agrees(r, Expected(m), View())
    {
      hide Step, OpOf, Number, BytesToCell, MemIndex, AluOp, Complement, ShiftOp, CmpFlags, Condition, FoldPath,
        HashCells, MixCells;
      StepNot(code, m.(ip := m.ip - 1), false);
      var a :- Operands(2);
      if a[0] >= 16 || a[1] >= 16 { return None; }
      reg := reg[a[0] := Complement(reg[a[1]])];
      r := Some(());
    }

    method ExecShift(ghost m: Machine, o: Op) returns (r: Option<()>)
      requires IsShift(o) && Fetched(m, o)
      modifies this
      ensures Agrees(r, Expected(m), View())
    {
      hide Step, OpOf, Number, BytesToCell, MemIndex, AluOp, Complement, ShiftOp, CmpFlags, Condition, FoldPath,
        HashCells, MixCells;
      StepShift(code, m.(ip := m.ip - 1), o, false);
      var a :- Operands(3);
      if a[0] >= 16 || a[1] >= 16 { return None; }
      reg := reg[a[0] := ShiftOp(o, reg[a[1]], a[2])];
      r := Some(());
    }

    method ExecCmp(ghost m: Machine) returns (r: Option<()>)
      requires Fetched(m, CMP)
      modifies this
      ensures Agrees(r, Expected(m), View())
    {
      hide Step, OpOf, Number, BytesToCell, MemIndex, AluOp, Complement, ShiftOp, CmpFlags, Condition, FoldPath,
        HashCells, MixCells;
      StepCmp(code, m.(ip := m.ip - 1), false);
      var a :- Operands(2);
      if a[0] >= 16 || a[1] >= 16 { return None; }
      flags := CmpFlags(reg[a[0]], reg[a[1]]);
      r := Some(());
    }

    method ExecCMov(ghost m: Machine) returns (r: Option<()>)
      requires Fetched(m, CMOV)
      modifies this
      ensures Agrees(r, Expected(m), View())
    {
      hide Step, OpOf, Number, BytesToCell, MemIndex, AluOp, Complement, ShiftOp, CmpFlags, Condition, FoldPath,
        HashCells, MixCells;
      StepCMov(code, m.(ip := m.ip - 1), false);
      var a :- Operands(3);
      var taken :- Cond(a[2]);
      if taken {
        if a[0] >= 16 || a[1] >= 16 { return None; }
        reg := reg[a[0] := reg[a[1]]];
      }
      r := Some(());
    }

    method ExecJmp(ghost m: Machine) returns (r: Option<()>)
      requires Fetched(m, JMP)
      modifies this
      ensures Agrees(r, Expected(m), View())
    {
      hide Step, OpOf, Number, BytesToCell, MemIndex, AluOp, Complement, ShiftOp, CmpFlags, Condition, FoldPath,
        HashCells, MixCells;
      StepJmp(code, m.(ip := m.ip - 1), false);
      var addr :- U16();
      ip := addr;
      r := Some(());
    }

    method ExecJcc(ghost m: Machine, o: Op) returns (r: Option<()>)
      requires (o.JZ? || o.JNZ?) && Fetched(m, o)
      modifies this
      ensures Agrees(r, Expected(m), View())
    {
      hide Step, OpOf, Number, BytesToCell, MemIndex, AluOp, Complement, ShiftOp, CmpFlags, Condition, FoldPath,
        HashCells, MixCells;
      StepJcc(code, m.(ip := m.ip - 1), o, false);
      var addr :- U16();
      var taken := if o.JZ? then flags.zf else !flags.zf;
      FoldBranch(taken);
      if taken { ip := addr; }
      r := Some(());
    }

    method ExecCall(ghost m: Machine) returns (r: Option<()>)
      requires Fetched(m, CALL)
      modifies this
      ensures Agrees(r, Expected(m), View())
    {
      hide Step, OpOf, Number, BytesToCell, MemIndex, AluOp, Complement, ShiftOp, CmpFlags, Condition, FoldPath,
        HashCells, MixCells;
      StepCall(code, m.(ip := m.ip - 1), false);
      var addr :- U16();
      stack := stack + [ip];
      ip := addr;
      r := Some(());
    }

    method ExecRet(ghost m: Machine) returns (r: Option<()>)
      requires Fetched(m, RET)
      modifies this
      ensures Agrees(r, Expected(m), View())
    {
      hide Step, OpOf, Number, BytesToCell, MemIndex, AluOp, Complement, ShiftOp, CmpFlags, Condition, FoldPath,
        HashCells, MixCells;
      StepRet(code, m.(ip := m.ip - 1), false);
      if |stack| == 0 { return None; }
      ip := stack[|stack| - 1];
      stack := stack[..|stack| - 1];
      r := Some(());
    }

    method ExecHash(ghost m: Machine) returns (r: Option<()>)
      requires Fetched(m, HASH_ROUND)
      modifies this
      ensures Agrees(r, Expected(m), View())
    {
      hide Step, OpOf, Number, BytesToCell, MemIndex, AluOp, Complement, ShiftOp, CmpFlags, Condition, FoldPath,
        HashCells, MixCells;
      StepHash(code, m.(ip := m.ip - 1), false);
      var a :- Operands(3);
      if a[0] >= 16 || a[1] >= 16 || a[2] >= 16 { return None; }
      reg := reg[a[0] := HashCells(reg[a[1]], reg[a[2]])];
      r := Some(());
    }

    method ExecMix(ghost m: Machine) returns (r: Option<()>)
      requires Fetched(m, MIX)
      modifies this
      ensures Agrees(r, Expected(m), View())
    {
      hide Step, OpOf, Number, BytesToCell, MemIndex, AluOp, Complement, ShiftOp, CmpFlags, Condition, FoldPath,
        HashCells, MixCells;
      StepMix(code, m.(ip := m.ip - 1), false);
      var a :- Operands(2);
      if a[0] >= 16 || a[1] >= 16 { return None; }
      reg := reg[a[0] := MixCells(reg[a[0]], reg[a[1]], a[0])];
      r := Some(());
    }

    method ExecHalt(ghost m: Machine) returns (r: Option<()>)
      requires Fetched(m, HALT)
      modifies this
      ensures Agrees(r, Expected(m), View())
    {
      hide Step, OpOf, Number, BytesToCell, MemIndex, AluOp, Complement, ShiftOp, CmpFlags, Condition, FoldPath,
        HashCells, MixCells;
      StepHalt(code, m.(ip := m.ip - 1), false);
      haltOperand :- U8();
      halted := true;
      r := Some(());
    }

    method Exec(ghost m: Machine, op: byte) returns (r: Option<()>)
      requires Valid() && m == View() && 0 < ip <= |code| && code[ip - 1] == op
      modifies this
      ensures Agrees(r, Expected(m), View())
    {
      hide Step;
      match OpOf(op) {
        case None =>
          StepUnknown(code, m.(ip := m.ip - 1), false);
          haltOperand := 0xFD;
          halted := true;
          r := Some(());
        case Some(o) =>
          match o {
            case NOP => StepNop(code, m.(ip := m.ip - 1), false); r := Some(());
            case MOV_RI => r := ExecMovRI(m);
            case MOV_RR => r := ExecMovRR(m);
            case LOAD => r := ExecLoad(m);
            case STORE => r := ExecStore(m);
            case ADD | SUB | MUL | XOR | AND | OR => r := ExecAlu(m, o);
            case NOT => r := ExecNot(m);
            case ROL | ROR | SHL | SHR => r := ExecShift(m, o);
            case CMP => r := ExecCmp(m);
            case CMOV => r := ExecCMov(m);
            case JMP => r := ExecJmp(m);
            case JZ | JNZ => r := ExecJcc(m, o);
            case CALL => r := ExecCall(m);
            case RET => r := ExecRet(m);
            case HASH_ROUND => r := ExecHash(m);
            case MIX => r := ExecMix(m);
            case HALT => r := ExecHalt(m);
          }
      }
    }

    // ---- the main loop and the output ----------------------------------------------------------------

    method Run() returns (r: Option<()>)
      requires Valid()
      modifies this
      ensures Agrees(r, Isa.Run(code, old(View()), 0, false), View())
      ensures r.Some? ==> Valid()
    {
      hide Isa.Run, Step;
      var steps := 0;
      ghost var start := View();
      while !halted
        invariant Valid() && steps <= MAX_STEPS
        invariant Isa.Run(code, View(), steps, false) == Isa.Run(code, start, 0, false)
        decreases MAX_STEPS - steps
      {
        ghost var m := View();
        RunTurn(code, m, steps, false);
        if steps >= MAX_STEPS {
          haltOperand := 0xEE;
          return Some(());
        }
        steps := steps + 1;
        if ip >= |code| { StepPastEnd(code, m, false); }
        var op :- U8();
        r := Exec(View(), op);
        if r.None? { return; }
      }
      RunTurn(code, View(), steps, false);
      r := Some(());
    }

    method Finish(p: Primitives) returns (out: VmResult)
      requires Valid() && Lawful(p)
      ensures out == Isa.Finish(p, View())
    {
      hide CellsBytes, AddressesBytes, Be32;
      var state := CellsBytes(reg) + AddressesBytes(stack) + [flags.Byte()] + BigEndian(ip % 0x1_0000,
          2) + Be32(path.v);
      out := VmResult(CellsBytes(reg[12..16]), Blake2b(p, state, [], 32), path.v,
                      (haltOperand as bv32) ^ (path.v & 0xFF));
    }
  }

  /** Construct, run and read out, as `run_vm` does once the memory is packed. */
  method RunVm(p: Primitives, code: Bytes, memory: seq<Cell>) returns (r: Option<VmResult>)
    requires Lawful(p) && |memory| == VM_MEM_WORDS
    ensures r == ResultOf(p, code, memory, false)
  {
    hide Isa.Run, Isa.Finish, Lawful;
    var vm := new Vm(code, memory);
    RunValid(code, Initial(memory), 0, false);
    var _ :- vm.Run();
    var out := vm.Finish(p);
    r := Some(out);
  }
}
