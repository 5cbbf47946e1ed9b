/** The client's engine refines the server's: when they agree, and the one way they can differ. */
module Engines {
  import opened ByteStrings
  import opened Crypto
  import opened Isa
  import opened Decoding

  /** The immediate of the MOV_RI at ip runs past the end of the code. */
  predicate CutShort(code: Bytes, ip: nat) {
    At(code, ip, MOV_RI) && ip + 1 < |code| < ip + 10
  }

  /** The server's run reaches such an instruction. */
  ghost predicate ReachesCut(code: Bytes, m: Machine, steps: nat)
    requires m.Valid() && steps <= MAX_STEPS
    decreases MAX_STEPS - steps
  {
    && !m.halted && steps < MAX_STEPS
    && (CutShort(code, m.ip) ||
        (Step(code, m, false).Some? && (StepValid(code, m, false);
        ReachesCut(code, Step(code, m, false).value, steps + 1))))
  }

  lemma StepsDiffer(code: Bytes, m: Machine)
    requires m.Valid()
    ensures Step(code, m, true) == if CutShort(code, m.ip) then None else Step(code, m, false)
  {
    hide OpOf, Exec;
    if At(code, m.ip, MOV_RI) {
      DecodeMovRI(code, m.ip, true);
      DecodeMovRI(code, m.ip, false);
    }
  }

  /**
   For every bytecode and memory: the client's run is the server's run, except that it raises
   exactly when the server's run executes a MOV_RI whose immediate is cut short.
   */
  lemma {:induction false} ClientRefinesServer(code: Bytes, m: Machine, steps: nat)
    requires m.Valid() && steps <= MAX_STEPS
    ensures Run(code, m, steps, true) == if ReachesCut(code, m, steps) then None else Run(code, m, steps, false)
    decreases MAX_STEPS - steps
  {
    hide Step, CutShort;
    RunTurn(code, m, steps, true);
    RunTurn(code, m, steps, false);
    StepsDiffer(code, m);
    if !m.halted && steps < MAX_STEPS && !CutShort(code, m.ip) && Step(code, m, false).Some? {
      ClientRefinesServer(code, Step(code, m, false).value, steps + 1);
    }
  }

  /** A result of the client is the server's result, whatever the two nonces are. */
  lemma ClientResultIsServers(p: Primitives, code: Bytes, memory: seq<Cell>)
    requires Lawful(p) && |memory| == VM_MEM_WORDS
    ensures ResultOf(p, code, memory, true).Some? ==>
              ResultOf(p, code, memory, false) == ResultOf(p, code, memory, true)
    ensures !ReachesCut(code, Initial(memory), 0) ==>
              ResultOf(p, code, memory, false) == ResultOf(p, code, memory, true)
  {
    hide Run, ReachesCut, Finish, Lawful;
    ClientRefinesServer(code, Initial(memory), 0);
  }

  // ---- exactly when the results differ ----------------------------------------------------------------------

  /** The turn that uses up the step limit is a MOV_RI into a register whose immediate is cut short. */
  ghost predicate CutOnLastTurn(code: Bytes, m: Machine, steps: nat)
    requires m.Valid() && steps <= MAX_STEPS
    decreases MAX_STEPS - steps
  {
    && !m.halted && steps < MAX_STEPS
    && if steps + 1 == MAX_STEPS then CutShort(code, m.ip) && IsReg(code[m.ip + 1])
       else
         && Step(code, m, false).Some?
         && (StepValid(code, m, false); CutOnLastTurn(code, Step(code, m, false).value, steps + 1))
  }

  lemma CutStep(code: Bytes, m: Machine)
    requires m.Valid() && CutShort(code, m.ip)
    ensures Step(code, m, false).Some? <==> IsReg(code[m.ip + 1])
    ensures Step(code, m, false).Some? ==>
              var m' := Step(code, m, false).value;
              m'.Valid() && m'.ip >= |code| && m'.halted == m.halted
  {
    hide OpOf, BytesToCell;
    DecodeMovRI(code, m.ip, false);
  }

  /** Behind the end every further turn raises. */
  lemma RunPastEnd(code: Bytes, m: Machine, steps: nat)
    requires m.Valid() && m.ip >= |code| && !m.halted && steps <= MAX_STEPS
    ensures Run(code, m, steps, false) == if steps == MAX_STEPS then Some(m.(haltOperand := 0xEE)) else None
  {
    hide Run, Step;
    RunTurn(code, m, steps, false);
    StepPastEnd(code, m, false);
  }

  /**
   A cut immediate leaves ip behind the end of the code, so that the server raises one turn later, unless
   that turn is never taken. The engines differ exactly when the cut is the 200000th turn: then the client
   raises and the server returns its runaway result.
   */
  lemma {:induction false} EnginesDifferExactly(code: Bytes, m: Machine, steps: nat)
    requires m.Valid() && steps <= MAX_STEPS
    ensures Run(code, m, steps, true) != Run(code, m, steps, false) <==> CutOnLastTurn(code, m, steps)
    ensures CutOnLastTurn(code, m, steps) ==> Run(code, m, steps, true).None? && Run(code, m, steps, false).Some?
    decreases MAX_STEPS - steps
  {
    hide Run, Step, CutShort;
    RunTurn(code, m, steps, true);
    RunTurn(code, m, steps, false);
    StepsDiffer(code, m);
    if !m.halted && steps < MAX_STEPS {
      if CutShort(code, m.ip) {
        CutStep(code, m);
        if Step(code, m, false).Some? {
          var m' := Step(code, m, false).value;
          RunPastEnd(code, m', steps + 1);
          PastEndIsNoCut(code, m', steps + 1);
        }
      } else if Step(code, m, false).Some? {
        EnginesDifferExactly(code, Step(code, m, false).value, steps + 1);
      }
    }
  }

  lemma PastEndIsNoCut(code: Bytes, m: Machine, steps: nat)
    requires m.Valid() && m.ip >= |code| && steps <= MAX_STEPS
    ensures !CutOnLastTurn(code, m, steps)
  {
    hide Step;
    StepPastEnd(code, m, false);
  }

  // ---- an input on which they differ ------------------------------------------------------------------------

  /** 199999 NOPs and a MOV_RI without an immediate. */
  function Runaway(): (code: Bytes)
    ensures |code| == 200_001
  { seq<byte>(199_999, _ => 0x00) + [0x10, 0x00] }

  lemma RunawayAt(k: nat)
    requires k <= MAX_STEPS
    ensures Runaway()[k] == if k == MAX_STEPS - 1 then 0x10 else 0
  {}

  lemma {:induction false} RunawayReachesCut(m: Machine, k: nat)
    requires m.Valid() && !m.halted && m.ip == k < MAX_STEPS
    ensures CutOnLastTurn(Runaway(), m, k)
    decreases MAX_STEPS - k
  {
    hide Runaway, Step, CutShort;
    RunawayAt(k);
    if k == MAX_STEPS - 1 {
      RunawayAt(k + 1);
      RunawayIsCut();
    } else {
      StepNop(Runaway(), m, false);
      RunawayReachesCut(m.(ip := k + 1), k + 1);
    }
  }

  lemma RunawayIsCut()
    ensures CutShort(Runaway(), MAX_STEPS - 1)
  {
    hide Runaway;
    RunawayAt(MAX_STEPS - 1);
  }

  /** For every memory. */
  lemma EnginesDifferOnRunaway(memory: seq<Cell>)
    requires |memory| == VM_MEM_WORDS
    ensures Run(Runaway(), Initial(memory), 0, true).None? && Run(Runaway(), Initial(memory), 0, false).Some?
  {
    hide Run, Runaway, CutOnLastTurn;
    RunawayReachesCut(Initial(memory), 0);
    EnginesDifferExactly(Runaway(), Initial(memory), 0);
  }
}
