/** What the machine does outside its opcodes: addressing, stopping, and the bytes its state leaves as. */
module MachineLaws {
  import opened ByteStrings
  import opened Words
  import opened Isa

  // ---- addresses --------------------------------------------------------------------------------------------

  lemma LowSix(w: Word)
    ensures w % 64 == Both(w, 63)
  {
    assert Both(w, 63) == w & 63;
  }

  /** A memory address is the low six bits of the register. */
  lemma AddressIsLowSixBits(a: Cell)
    ensures MemIndex(a) == Both(a.w, 63) as nat
  {
    LowSix(a.w);
    hide Both;
  }

  /** A branch enters the path with the low sixteen bits of the address behind it. */
  lemma SiteIsLowHalf(path: Path, address: nat, taken: bool)
    ensures address < 0x1_0000 ==> FoldPath(path, address, taken) == Path(FoldBits(path.v, SiteBits(address), taken))
    ensures FoldPath(path, address + 0x1_0000, taken) == FoldPath(path, address, taken)
  {
    assert (address + 0x1_0000) % 0x1_0000 == address % 0x1_0000;
    hide FoldBits, SiteBits;
  }

  // ---- stopping ---------------------------------------------------------------------------------------------

  /** A byte that is no opcode halts with 0xFD, and a run that is not over after 200000 turns ends with 0xEE. */
  lemma StopCodes(code: Bytes, m: Machine, strict: bool)
    requires m.Valid()
    ensures m.ip < |code| && OpOf(code[m.ip]).None? ==>
              Step(code, m, strict) == Some(m.(ip := m.ip + 1, halted := true, haltOperand := 0xFD))
    ensures !m.halted ==> Run(code, m, 200_000, strict) == Some(m.(haltOperand := 0xEE))
  {
    RunTurn(code, m, 200_000, strict);
    hide OpOf, Run;
  }

  // ---- the state as bytes -----------------------------------------------------------------------------------

  /** ZF, CF and SF are bits 0, 1 and 2. */
  lemma FlagBits(f: Flags)
    ensures BitAt(f.Byte(), 0) == (if f.zf then 1 else 0) && BitAt(f.Byte(), 1) == (if f.cf then 1 else 0)
    ensures BitAt(f.Byte(), 2) == (if f.sf then 1 else 0) && f.Byte() < 8
  {
    var n: nat := f.Byte();
    assert BitAt(n, 1) == BitAt(n / 2, 0);
    assert BitAt(n, 2) == BitAt(n / 2, 1) && BitAt(n / 2, 1) == BitAt(n / 2 / 2, 0);
  }

  lemma SliceOfSum(a: Bytes, b: Bytes, lo: nat, hi: nat)
    requires lo <= hi
    ensures hi <= |a| ==> (a + b)[lo..hi] == a[lo..hi]
    ensures lo == |a| && hi == |a| + |b| ==> (a + b)[lo..hi] == b
  {}

  lemma {:induction false} CellBytesAt(cs: seq<Cell>, i: nat)
    requires i < |cs|
    ensures |CellsBytes(cs)| == 8 * |cs| && CellsBytes(cs)[8 * i..8 * i + 8] == WordBytes(cs[i].w)
  {
    hide WordBytes;
    var n := |cs| - 1;
    var before, last := CellsBytes(cs[..n]), WordBytes(cs[n].w);
    assert CellsBytes(cs) == before + last;
    if n > 0 { CellBytesAt(cs[..n], if i < n then i else 0); }
    hide CellsBytes;
    SliceOfSum(before, last, 8 * i, 8 * i + 8);
  }

  lemma {:induction false} AddressBytesAt(s: seq<nat>, i: nat)
    requires i < |s|
    ensures |AddressesBytes(s)| == 8 * |s| && AddressesBytes(s)[8 * i..8 * i + 8] == BigEndian(s[i], 8)
  {
    var n := |s| - 1;
    var before, last := AddressesBytes(s[..n]), BigEndian(s[n], 8);
    assert AddressesBytes(s) == before + last;
    if n > 0 { AddressBytesAt(s[..n], if i < n then i else 0); }
    hide BigEndian, AddressesBytes;
    SliceOfSum(before, last, 8 * i, 8 * i + 8);
  }

  lemma StateParts(m: Machine)
    requires m.Valid()
    ensures var b, n := StateBytes(m), 128 + 8 * |m.stack|;
            && |b| == n + 7 && b[..128] == CellsBytes(m.reg) && b[128..n] == AddressesBytes(m.stack)
            && b[n] == m.flags.Byte() && b[n + 1..n + 3] == BigEndian(m.ip % 0x1_0000, 2)
            && b[n + 3..] == BigEndian(m.path.v as nat, 4)
  {
    CellBytesAt(m.reg, 0);
    assert m.stack == [] ==> AddressesBytes(m.stack) == [];
    if m.stack != [] { AddressBytesAt(m.stack, 0); }
    hide CellsBytes, AddressesBytes, BigEndian;
  }

  /** Flags, ip and path stand behind registers and stack. */
  lemma StateTail(m: Machine)
    requires m.Valid()
    ensures var b, n := StateBytes(m), 128 + 8 * |m.stack|;
            && |b| == n + 7 && b[n] == m.flags.Byte()
            && Number(b[n + 1..n + 3]) == m.ip % 0x1_0000 && Number(b[n + 3..]) == m.path.v as nat
  {
    StateParts(m);
    Pow256Values();
    NumberOfBigEndian(m.ip % 0x1_0000, 2);
    NumberOfBigEndian(m.path.v as nat, 4);
    hide StateBytes, BigEndian, Number, Pow256, CellsBytes, AddressesBytes;
  }

  /** What the state hash covers: the registers, then the stack from the bottom, as words of eight bytes. */
  lemma StateWords(m: Machine, i: nat)
    requires m.Valid()
    ensures var b := StateBytes(m);
            && |b| == 128 + 8 * |m.stack| + 7
            && (i < 16 ==> b[8 * i..8 * i + 8] == WordBytes(m.reg[i].w))
            && (i < |m.stack| ==> b[128 + 8 * i..128 + 8 * i + 8] == BigEndian(m.stack[i], 8))
  {
    StateParts(m);
    hide StateBytes, BigEndian, WordBytes, CellsBytes, AddressesBytes;
    var b, n := StateBytes(m), 128 + 8 * |m.stack|;
    if i < 16 {
      CellBytesAt(m.reg, i);
      SliceOfSlice(b, 0, 128, 8 * i);
    }
    if i < |m.stack| {
      AddressBytesAt(m.stack, i);
      SliceOfSlice(b, 128, n, 8 * i);
    }
  }

  lemma SliceOfSlice(b: Bytes, lo: nat, hi: nat, k: nat)
    requires lo <= hi <= |b| && lo + k + 8 <= hi
    ensures b[lo..hi][k..k + 8] == b[lo + k..lo + k + 8]
  {
    var x, y := b[lo..hi][k..k + 8], b[lo + k..lo + k + 8];
    assert |x| == |y| && forall i :: 0 <= i < 8 ==> x[i] == y[i];
  }
}
