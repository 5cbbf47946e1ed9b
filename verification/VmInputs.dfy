/** The packed memory and `run_vm` of both programs on the canonical bytecode. */
module VmInputs {
  import opened ByteStrings
  import opened Crypto
  import opened Isa
  import opened Dispatch
  import opened Assembler
  import opened Lockstep
  import opened CanonicalProgram
  import opened CanonicalResult
  import Engines
  import VmReference
  import VmClient

  // ---- memory -----------------------------------------------------------------------------------------------

  /** Cut or zero-filled to n bytes. */
  function Padded(data: Bytes, n: nat): (r: Bytes)
    ensures |r| == n
  { if |data| >= n then data[..n] else data + Zeros(n - |data|) }

  function WordAt(data: Bytes, n: nat, i: nat): Cell
    requires i < n
  { BytesToCell(Padded(data, 8 * n)[8 * i..8 * i + 8]) }

  /** n big-endian words. */
  function WordsFrom(data: Bytes, n: nat): (r: seq<Cell>)
    ensures |r| == n
  { seq(n, i requires 0 <= i < n => WordAt(data, n, i)) }

  datatype Inputs = Inputs(username: Bytes, license: Bytes, serverRandom: Bytes, sessionId: Bytes, prefix: Bytes)

  function Capped(username: Bytes): (u: Bytes)
    ensures |u| <= 64
  { if |username| <= 64 then username else username[..64] }

  function PackInputs(p: Primitives, x: Inputs): (mem: seq<Cell>)
    requires Lawful(p)
    ensures |mem| == VM_MEM_WORDS
  {
    [BytesToCell(BigEndian(|Capped(x.username)|, 8))] + WordsFrom(Capped(x.username), 8) + WordsFrom(x.license, 4)
      + WordsFrom(x.serverRandom, 2) + WordsFrom(x.sessionId, 2) + WordsFrom(x.prefix, 4)
      + [BytesToCell(Blake2b(p, Ascii("RG6-VM-INPUT/v6"), [], 8))] + seq(42, _ => ZERO)
  }

  /** A field in memory: its words are the bytes eight at a time, with zeros behind the last one. */
  ghost predicate Holds(mem: seq<Cell>, at: nat, n: nat, data: Bytes)
    requires at + n <= |mem|
  {
    exists z: Bytes :: && |z| == 8 * n && data[..if |data| <= 8 * n then |data| else 8 * n] <= z
                       && (forall i :: |data| <= i < 8 * n ==> z[i] == 0)
                       && forall i :: 0 <= i < n ==> mem[at + i] == BytesToCell(z[8 * i..8 * i + 8])
  }

  lemma FieldHolds(mem: seq<Cell>, at: nat, n: nat, data: Bytes)
    requires at + n <= |mem| && mem[at..at + n] == WordsFrom(data, n)
    ensures Holds(mem, at, n, data)
  {
    var z := Padded(data, 8 * n);
    hide BytesToCell;
    forall i | 0 <= i < n ensures mem[at + i] == BytesToCell(z[8 * i..8 * i + 8]) {
      assert mem[at + i] == mem[at..at + n][i];
    }
  }

  /** Only the first 64 bytes of a username count. */
  lemma CappedHolds(mem: seq<Cell>, username: Bytes)
    requires |mem| >= 9 && Holds(mem, 1, 8, Capped(username))
    ensures Holds(mem, 1, 8, username)
  {
    hide BytesToCell;
  }

  /** Where everything lies: length, username, license, server random, session id, prefix, domain word, zeros. */
  lemma PackedLayout(p: Primitives, x: Inputs)
    requires Lawful(p)
    ensures var mem := PackInputs(p, x);
            && mem[0] == BytesToCell(BigEndian(if |x.username| <= 64 then |x.username| else 64, 8))
            && Holds(mem, 1, 8, x.username) && Holds(mem, 9, 4, x.license) && Holds(mem, 13, 2, x.serverRandom)
            && Holds(mem, 15, 2, x.sessionId) && Holds(mem, 17, 4, x.prefix)
            && mem[21] == BytesToCell(p.blake2b(Ascii("RG6-VM-INPUT/v6"), [], 8))
            && forall i :: 22 <= i < 64 ==> mem[i] == Cell(0)
  {
    PackedFields(p, x);
    hide PackInputs, WordsFrom, Blake2b, Ascii, Lawful, BigEndian, Holds, BytesToCell;
    var mem := PackInputs(p, x);
    FieldHolds(mem, 1, 8, Capped(x.username));
    CappedHolds(mem, x.username);
    FieldHolds(mem, 9, 4, x.license);
    FieldHolds(mem, 13, 2, x.serverRandom);
    FieldHolds(mem, 15, 2, x.sessionId);
    FieldHolds(mem, 17, 4, x.prefix);
  }

  lemma PackedFields(p: Primitives, x: Inputs)
    requires Lawful(p)
    ensures var mem := PackInputs(p, x);
            && mem[0] == BytesToCell(BigEndian(|Capped(x.username)|, 8))
            && mem[1..9] == WordsFrom(Capped(x.username), 8)
            && mem[9..13] == WordsFrom(x.license, 4) && mem[13..15] == WordsFrom(x.serverRandom, 2)
            && mem[15..17] == WordsFrom(x.sessionId, 2) && mem[17..21] == WordsFrom(x.prefix, 4)
            && mem[21] == BytesToCell(p.blake2b(Ascii("RG6-VM-INPUT/v6"), [], 8))
            && forall i :: 22 <= i < 64 ==> mem[i] == Cell(0)
  {
    assert Blake2b(p, Ascii("RG6-VM-INPUT/v6"), [], 8) == p.blake2b(Ascii("RG6-VM-INPUT/v6"), [], 8);
    hide WordsFrom, BytesToCell, Blake2b, Ascii, Lawful, BigEndian, Capped;
    Fields(BytesToCell(BigEndian(|Capped(x.username)|, 8)), WordsFrom(Capped(x.username), 8), WordsFrom(x.license, 4),
           WordsFrom(x.serverRandom, 2), WordsFrom(x.sessionId, 2), WordsFrom(x.prefix, 4),
           BytesToCell(Blake2b(p, Ascii("RG6-VM-INPUT/v6"), [], 8)), seq(42, _ => ZERO));
  }

  lemma Fields(n: Cell, a: seq<Cell>, b: seq<Cell>, c: seq<Cell>, d: seq<Cell>, e: seq<Cell>, f: Cell, z: seq<Cell>)
    requires |a| == 8 && |b| == |e| == 4 && |c| == |d| == 2 && |z| == 42
    ensures var m := [n] + a + b + c + d + e + [f] + z;
            && m[0] == n && m[1..9] == a && m[9..13] == b && m[13..15] == c && m[15..17] == d && m[17..21] == e
            && m[21] == f && m[22..] == z && |m| == 64 && forall i :: 22 <= i < 64 ==> m[i] == z[i - 22]
  {}

  method WriteWords(mem: array<Cell>, at: nat, ws: seq<Cell>)
    requires at + |ws| <= mem.Length
    modifies mem
    ensures mem[..at + |ws|] == old(mem[..at]) + ws
    ensures forall k :: at + |ws| <= k < mem.Length ==> mem[k] == old(mem[k])
  {
    for i := 0 to |ws|
      invariant mem[..at + i] == old(mem[..at]) + ws[..i]
      invariant forall k :: at + i <= k < mem.Length ==> mem[k] == old(mem[k])
    {
      mem[at + i] := ws[i];
    }
    assert ws[..|ws|] == ws;
  }

  /** Words 0 to 12: the username and the license. */
  method PackUser(mem: array<Cell>, x: Inputs)
    requires mem.Length == VM_MEM_WORDS
    modifies mem
    ensures mem[..13] == [BytesToCell(BigEndian(|Capped(x.username)|, 8))] + WordsFrom(Capped(x.username),
        8) + WordsFrom(x.license, 4)
    ensures forall k :: 13 <= k < mem.Length ==> mem[k] == old(mem[k])
  {
    hide WordsFrom, BytesToCell, BigEndian, Capped;
    var uname := Capped(x.username);
    WriteWords(mem, 0, [BytesToCell(BigEndian(|uname|, 8))]);
    WriteWords(mem, 1, WordsFrom(uname, 8));
    WriteWords(mem, 9, WordsFrom(x.license, 4));
  }

  /** One word after the other is written into a zeroed memory; the two programs do it alike. */
  method Pack(p: Primitives, x: Inputs) returns (mem: array<Cell>)
    requires Lawful(p)
    ensures fresh(mem) && mem[..] == PackInputs(p, x)
  {
    hide WordsFrom, BytesToCell, Blake2b, Ascii, Lawful, BigEndian, Capped;
    mem := new Cell[VM_MEM_WORDS](_ => ZERO);
    PackUser(mem, x);
    WriteWords(mem, 13, WordsFrom(x.serverRandom, 2));
    WriteWords(mem, 15, WordsFrom(x.sessionId, 2));
    WriteWords(mem, 17, WordsFrom(x.prefix, 4));
    WriteWords(mem, 21, [BytesToCell(Blake2b(p, Ascii("RG6-VM-INPUT/v6"), [], 8))]);
    assert mem[22..] == seq(42, _ => ZERO);
    assert mem[..] == mem[..22] + mem[22..];
  }

  // ---- the bytecode -----------------------------------------------------------------------------------------

  function Code(): Bytes {
    ProgramWellFormed();
    Assembles(Program());
    Assembled(Program()).value
  }

  /** The blob the generator embeds in both programs. */
  function EncryptedBlob(p: Primitives, blobKey: Bytes): Bytes
    requires Lawful(p)
  { StreamXor(p, blobKey, Code(), Ascii("RG6-VM-BLOB/v6")) }

  /** Byte i of the blob is byte i of the program under the keystream of its own domain. */
  lemma BlobAt(p: Primitives, blobKey: Bytes, i: nat)
    requires Lawful(p) && i < |Code()|
    ensures |EncryptedBlob(p, blobKey)| == |Code()|
    ensures |p.blake2b(Ascii("RG6-VM-BLOB/v6") + BigEndian(i / 64, 8), blobKey, 64)| == 64
    ensures EncryptedBlob(p, blobKey)[i] ==
            XorByte(Code()[i], p.blake2b(Ascii("RG6-VM-BLOB/v6") + BigEndian(i / 64, 8), blobKey, 64)[i % 64])
  {
    hide Code, Ascii, Lawful, Keystream, XorByte, BigEndian;
    KeystreamAt(p, blobKey, |Code()|, Ascii("RG6-VM-BLOB/v6"), i);
  }

  method LoadBytecode(p: Primitives, blobKey: Bytes) returns (code: Bytes)
    requires Lawful(p)
    ensures code == Code()
  {
    hide Code, StreamXor, Ascii, Lawful;
    var blob := EncryptedBlob(p, blobKey);
    var ks := BlakeCtrKeystream(p, blobKey, |blob|, Ascii("RG6-VM-BLOB/v6"));
    XorWithKeystream(p, blobKey, blob, Ascii("RG6-VM-BLOB/v6"));
    code := XorBytes(blob, ks);
    StreamXorTwice(p, blobKey, Code(), Ascii("RG6-VM-BLOB/v6"));
  }

  lemma XorWithKeystream(p: Primitives, key: Bytes, data: Bytes, domain: Bytes)
    requires Lawful(p)
    ensures StreamXor(p, key, data, domain) == XorBytes(data, Keystream(p, key, |data|, domain))
  {}

  // ---- run_vm -----------------------------------------------------------------------------------------------

  function VmResultOf(p: Primitives, x: Inputs, strict: bool): Option<VmResult>
    requires Lawful(p)
  { ResultOf(p, Code(), PackInputs(p, x), strict) }

  /** On the canonical program neither engine raises, and they agree. */
  lemma BothVmsAgree(p: Primitives, x: Inputs)
    requires Lawful(p)
    ensures VmResultOf(p, x, true).Some? && VmResultOf(p, x, true) == VmResultOf(p, x, false)
    ensures |VmResultOf(p, x, true).value.digest| == 32 && |VmResultOf(p, x, true).value.stateHash| == 32
  {
    hide PackInputs, ResultOf, Program, Lawful;
    var mem := PackInputs(p, x);
    CanonicalResultIs(p, mem, true);
    Engines.ClientResultIsServers(p, Code(), mem);
    ResultLengths(p, Code(), mem, true);
  }

  lemma ResultLengths(p: Primitives, code: Bytes, mem: seq<Cell>, strict: bool)
    requires Lawful(p) && |mem| == VM_MEM_WORDS && ResultOf(p, code, mem, strict).Some?
    ensures |ResultOf(p, code, mem, strict).value.digest| == 32
        && |ResultOf(p, code, mem, strict).value.stateHash| == 32
  {
    hide Run, StateBytes, WordBytes, HaltCode, Lawful;
    RunValid(code, Initial(mem), 0, strict);
    var m := Run(code, Initial(mem), 0, strict).value;
    CellsLength(m.reg[12..16]);
  }

  lemma {:induction false} CellsLength(cs: seq<Cell>)
    ensures |CellsBytes(cs)| == 8 * |cs|
  {
    if cs != [] { CellsLength(cs[..|cs| - 1]); }
  }

  method RunVmServer(p: Primitives, blobKey: Bytes, x: Inputs) returns (r: Option<VmResult>)
    requires Lawful(p)
    ensures r == VmResultOf(p, x, false)
  {
    hide Code, PackInputs, Lawful, ResultOf;
    var mem := Pack(p, x);
    var code := LoadBytecode(p, blobKey);
    r := VmReference.RunVm(p, code, mem[..]);
  }

  method RunVmClient(p: Primitives, blobKey: Bytes, x: Inputs, nonce: Bytes) returns (r: Option<VmResult>)
    requires Lawful(p)
    ensures r == VmResultOf(p, x, true)
  {
    hide Code, PackInputs, Lawful, ResultOf;
    var mem := Pack(p, x);
    var code := LoadBytecode(p, blobKey);
    r := VmClient.RunVm(p, code, mem[..], nonce);
  }
}
