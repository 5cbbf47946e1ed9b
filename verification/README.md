# RankGate Insane: a verified model

RankGate Insane is a small virtual machine with an assembler, a disassembler and two independent engines, inside
an authenticated three-round protocol between a C++ client and a stateful Python server. This project models both
programs in Dafny and proves what they promise each other.

- **Virtual machine.** `Isa` gives one step and a whole run as functions; `VmReference` is the Python class and
  `VmClient` the C++ class with its permuted dispatch table, each proved against them (`Dispatch`, `Decoding`,
  `Engines`). `Words` has the 64-bit helpers; `OpcodeLaws` and `MachineLaws` fix what each opcode and each output
  byte is by laws that hold whatever the way it is computed.
- **Toolchain.** `Assembler` and `Disassembler` are the tools; `LabelMachine` runs item lists directly and
  `Lockstep` relates that to the bytes. `CanonicalProgram`, `CanonicalTurns`, `CanonicalSpec`, `CanonicalItems`,
  `CanonicalRun`, `CanonicalResult` and `CanonicalPath` are the correctness of the 242-byte program.
- **Protocol.** `FrameFormat`, `Transcripts`, `Kdf`, `Channel`; on the server `Recency`, `ServerObjects`,
  `Handlers` with the request model `ServerModel`, and over whole runs `ServerRuns`, `ServerSafety`,
  `FlagEvidence`; on the client `ClientModel` and `Client`; both together `HonestRun` and `Interleaving`. `Evidence`
  and `ClientEvidence` say of each message, byte by byte and in terms of the primitives alone, when it is accepted.
- **BLAKE2b.** `Blake2bRounds` and `Blake2bStream` prove the client's streaming implementation against the
  definition in RFC 7693, and `Blake2bConformance` checks that definition against the standard's own vector.
- **Codecs.** `Base64`, `Blanks`, `Usernames`, `Licenses`, `LicenseText`, `Splicer`; `ByteStrings` and `VmInputs` beneath.

`None` stands for a raised exception. SHA-256, HMAC, X25519, Ed25519, the AEAD and the library's BLAKE2b are the
functions of `Crypto.Primitives`; the only facts about them are those of `Crypto.Lawful`, and
`Crypto.LawfulExists` shows that they are consistent. No hash is assumed injective: binding results end in a
concrete collision. Randomness is a parameter of each request, so that the results hold for all draws. Registers,
memory words and paths are 64- and 32-bit vectors in a box; bytes are integers below 256. A rotation by n is n
rotations by one bit where n is a run-time value.

Where comments and code differ, the model follows the code:

- `server/app/vm_reference.py:3-5` calls the client's engine equivalent; the two differ on the inputs of
  `Engines.EnginesDifferExactly` and on no others.
- `server/app/sessions.py:5-6` says that the oldest session is evicted; it is the least recently touched one.
- `client/src/challenge/license_format.cpp:64` speaks of surrounding whitespace; blanks are skipped everywhere.

`dafny verify dfyconfig.toml` checks the project.

## Model

| member | source | states |
|---|---|---|
| CanonicalResult.CanonicalProgramCorrect | tools/generate_vm_bytecode.py:84-162 | for every 64-word memory and both engines: the assembled program has 242 bytes and halts with operand 0x42 after exactly 379 turns plus one for each odd word among the first 22, with ip 164, an empty stack, ZF alone set, only word 21 changed, all sixteen registers given, and R12..R15 and the path equal to the recursive fold, avalanche and finalize functions |
| CanonicalResult.CanonicalResultIs | server/app/vm_reference.py:305-317 | the digest, state hash, path id and halt code both engines then hand back, as functions of the memory: the four accumulators, the primitive hash of registers, ZF, ip 164 and path, and 0x42 over the low path byte |
| CanonicalPath.PathIdSeesLowBits | server/app/vm_reference.py:210-211 | the path id of the canonical program depends on the 22 low bits of words 0..21 alone, and memories whose low bits differ in exactly one of them always get different path ids |
| CanonicalPath.FoldPermutes | server/app/vm_reference.py:210-211 | for each branch address and decision the path fold permutes the 32-bit values; 0x359C449B undoes the multiplication by 0x01000193 |
| CanonicalPath.OneDecision | tools/generate_vm_bytecode.py:104-126 | two decision sequences that differ in one place have equal loop paths up to that place and different ones ever after |
| CanonicalRun.RunToHalt | tools/generate_vm_bytecode.py:104-162 | from the head of the loop to the HALT: the turn count, and every register, the flags, the memory and the path it ends with |
| CanonicalRun.Loop | tools/generate_vm_bytecode.py:104-126 | k turns of the fold loop take 15 k turns plus one for each odd word and leave the fold of the first k words |
| Lockstep.AssemblyPreservesMeaning | tools/generate_vm_bytecode.py:50-81 | for every well-formed item list: the bytes on either engine and the label-level machine on the items both raise, or stop after the same number of turns in machines that differ only in that ip and stacked addresses are offsets instead of item indices |
| Lockstep.StepsTogether | tools/generate_vm_bytecode.py:50-81 | one turn of the bytes and one turn of the items correspond, whatever the machine state |
| Lockstep.FetchesItem | tools/generate_vm_bytecode.py:59-81 | decoding the assembled bytes at the offset of an item yields that item's instruction, its label operands replaced by the offsets of pass 1, and the offset of the next item |
| LabelMachine.BodyMeans | tools/generate_vm_bytecode.py:67-77 | the operand bytes pass 2 emits mean what the item means |
| Assembler.LabelOffsetOfIndex | tools/generate_vm_bytecode.py:51-57 | the label dictionary maps each name to the offset of its last definition |
| Assembler.Assembler.AddLabel | tools/generate_vm_bytecode.py:41-42 | appends a label item and nothing else |
| Assembler.Assembler.AddEmit | tools/generate_vm_bytecode.py:44-45 | appends an instruction item and nothing else |
| Assembler.Assembler.Assemble | tools/generate_vm_bytecode.py:50-81 | two passes: the dictionary of offsets, then the code, or an exception for an unknown label or operands of the wrong width |
| CanonicalProgram.BuildProgram | tools/generate_vm_bytecode.py:84-162 | the calls of `build_program` produce the assembly of the item list the theorems are about |
| CanonicalProgram.ProgramWellFormed | tools/generate_vm_bytecode.py:84-162 | every instruction of the program has a meaning and every address survives the cut to 16 bits |
| CanonicalProgram.MeaningOf | tools/generate_vm_bytecode.py:84-162 | what each item means as an instruction on item indices |
| Disassembler.Disassemble | tools/disassemble_vm.py:47-58 | the loop yields the linear sweep |
| Disassembler.FindLabels | tools/disassemble_vm.py:61-66 | exactly the branch targets of the sweep, each with its label of four hexadecimal digits |
| Disassembler.LabelsDiffer | tools/disassemble_vm.py:61-66 | on any code, different branch targets get different labels |
| Disassembler.LabelExample | tools/disassemble_vm.py:66 | the label of 0x12F9: L and lower-case digits |
| Disassembler.SweepLosesNothing | tools/disassemble_vm.py:47-58 | on every byte string the lines of the sweep, put together, give the code back |
| Disassembler.SweepFindsListing | tools/disassemble_vm.py:47-58 | on an assembled program the sweep lists exactly the emitted instructions with their offsets |
| Engines.ClientRefinesServer | server/app/vm_reference.py:224-303 | for every bytecode and memory the client's run equals the server's, except that it raises exactly when the server's run executes a MOV_RI whose immediate runs past the code, where Python takes a short slice |
| Engines.EnginesDifferExactly | server/app/vm_reference.py:224-240 | the two engines give different outcomes if and only if the 200000th turn is a MOV_RI into a register with a cut immediate; then the client raises and the server returns its runaway result |
| Engines.EnginesDifferOnRunaway | client/src/vm/vm.cpp:150-154 | a concrete bytecode, 199999 NOPs and a MOV_RI without immediate, on which they differ for every memory |
| Engines.ClientResultIsServers | client/src/vm/vm.cpp:107-122 | a result of the client is the server's result; both agree whenever no cut immediate is executed |
| Words.HashRoundTwoToOne | server/app/vm_reference.py:112-119 | for every a, hash_round(a, .) takes equal values exactly at b and at its twin, which differs from b: it is exactly two-to-one |
| Words.HashRoundImage | server/app/vm_reference.py:112-119 | for every a, a word is a value of hash_round(a, .) if and only if its bit parity is even |
| Words.LiteralLeftRotations | server/app/vm_reference.py:102-119 | the literal left rotations inside hash_round are the general rotation by 13 and by 17 |
| Words.LiteralRightRotation | server/app/vm_reference.py:107-119 | the literal right rotation inside hash_round is the general one by 7 |
| Words.MixBijectiveInAcc | server/app/vm_reference.py:121-123 | mix is a bijection in the accumulator, with its inverse |
| Words.MixBijectiveInVal | server/app/vm_reference.py:121-123 | mix is a bijection in the value, with its inverse |
| OpcodeLaws.BitsAreIndependent | server/app/vm_reference.py:262-264 | XOR, AND and OR commute with every mask: they work on each set of bits alone |
| OpcodeLaws.AndIsMask | server/app/vm_reference.py:263 | AND with a mask keeps exactly the bits of the mask |
| OpcodeLaws.TruthTables | server/app/vm_reference.py:262-264 | the truth tables of XOR, AND and OR on words of zeros and ones, which with the masks fix the three on all words |
| OpcodeLaws.XorTwice | server/app/vm_reference.py:262 | XOR with the same word twice gives the word back |
| OpcodeLaws.ComplementFlips | server/app/vm_reference.py:266-267 | a word and its NOT differ in every bit |
| OpcodeLaws.LatticeLaws | server/app/vm_reference.py:263-267 | De Morgan for OR, AND and NOT, and both absorption laws |
| OpcodeLaws.SumLaws | server/app/vm_reference.py:259-260 | ADD counts up from its first operand by ones, modulo 2^64; SUB undoes ADD on both sides |
| OpcodeLaws.ProductLaws | server/app/vm_reference.py:261 | MUL by zero is zero, and one more in the second operand adds the first once more |
| OpcodeLaws.OneAtATime | server/app/vm_reference.py:268-275 | each of the four shifts by n + 1 is one by n and one by 1 |
| OpcodeLaws.AmountIsModulo64 | server/app/vm_reference.py:268-275 | only the low six bits of the amount count, and a shift by zero changes nothing |
| OpcodeLaws.ShlDoubles | server/app/vm_reference.py:273 | SHL by one doubles modulo 2^64 |
| OpcodeLaws.ShrHalves | server/app/vm_reference.py:274 | SHR by one, doubled again and with the lost bit put back, is the word |
| OpcodeLaws.ShrClearsTop | server/app/vm_reference.py:274 | SHR by one brings a zero in at the top |
| OpcodeLaws.RolMovesUp | server/app/vm_reference.py:271 | ROL by one moves the low 63 bits up |
| OpcodeLaws.RolTurnsTop | server/app/vm_reference.py:271 | ROL by one brings the top bit in at the bottom |
| OpcodeLaws.RotationLaws | server/app/vm_reference.py:271-272 | ROR undoes ROL and ROL undoes ROR for every amount |
| OpcodeLaws.ConditionLaws | server/app/vm_reference.py:194-208 | the condition codes after a CMP: equal, below without sign, sign bit of the difference, each followed by its negation, and no others |
| OpcodeLaws.HashIsFiveOpcodes | server/app/vm_reference.py:112-118 | HASH_ROUND is the five opcodes its statements name, constants and amounts included |
| OpcodeLaws.MixIsThreeOpcodes | server/app/vm_reference.py:121-123 | MIX is a rotation by (7 rd + 13) mod 64, an exclusive or with its constant and an addition |
| OpcodeLaws.FoldLaws | server/app/vm_reference.py:210-211 | the path fold multiplies by the FNV prime and takes address and decision in bit by bit |
| OpcodeLaws.HaltCodeLaws | server/app/vm_reference.py:316 | the halt code is the operand with the low byte of the path over it |
| OpcodeLaws.WordBytesAre | server/app/vm_reference.py:306 | a register leaves the engine as eight big-endian bytes |
| OpcodeLaws.OpcodeNumbers | server/app/vm_reference.py:38-63 | the numbers of the 26 opcodes; every other byte is none |
| MachineLaws.AddressIsLowSixBits | server/app/vm_reference.py:250-255 | LOAD and STORE address by the low six bits of the register |
| MachineLaws.SiteIsLowHalf | server/app/vm_reference.py:211 | a branch enters the path with the low sixteen bits of ip |
| MachineLaws.StopCodes | server/app/vm_reference.py:230-303 | an unknown byte halts with 0xFD, and a run of 200000 turns stops with 0xEE |
| MachineLaws.FlagBits | server/app/vm_reference.py:78 | ZF, CF and SF are bits 0, 1 and 2 of the flags byte, and there are no others |
| MachineLaws.StateWords | server/app/vm_reference.py:307-311 | the bytes under the state hash: sixteen registers, then the stack from the bottom, eight bytes each |
| MachineLaws.StateTail | server/app/vm_reference.py:312-314 | behind them the flags byte, the low half of ip and the path, big-endian |
| VmReference.Vm.constructor | server/app/vm_reference.py:179-191 | zero registers, the given memory, empty stack, the FNV offset as path |
| VmReference.Vm.Cond | server/app/vm_reference.py:204-208 | the six conditions; any other code raises |
| VmReference.Vm.FoldBranch | server/app/vm_reference.py:210-211 | the branch decision enters the path with the low half of ip, modulo 2^32 |
| VmReference.Vm.U8 | server/app/vm_reference.py:214-217 | a byte, or an exception past the end |
| VmReference.Vm.U16 | server/app/vm_reference.py:219-222 | a big-endian pair, or an exception |
| VmReference.Vm.U64 | server/app/vm_reference.py:224-227 | a big-endian word; a short slice past the end and no exception |
| VmReference.Vm.ExecMovRI | server/app/vm_reference.py:246-247 | MOV_RI: the whole object ends in the machine the step function gives, or raises when that is None |
| VmReference.Vm.ExecMovRR | server/app/vm_reference.py:248-249 | MOV_RR: the whole object ends in the machine the step function gives, or raises when that is None |
| VmReference.Vm.ExecLoad | server/app/vm_reference.py:250-252 | LOAD: the whole object ends in the machine the step function gives, or raises when that is None |
| VmReference.Vm.ExecStore | server/app/vm_reference.py:253-255 | STORE: the whole object ends in the machine the step function gives, or raises when that is None |
| VmReference.Vm.ExecAlu | server/app/vm_reference.py:256-265 | the six ALU opcodes: the whole object ends in the machine the step function gives, or raises when that is None; what each opcode computes is fixed by the laws of `OpcodeLaws` |
| VmReference.Vm.ExecNot | server/app/vm_reference.py:266-267 | NOT: the whole object ends in the machine the step function gives, or raises when that is None |
| VmReference.Vm.ExecShift | server/app/vm_reference.py:268-275 | the four shifts: the whole object ends in the machine the step function gives, or raises when that is None |
| VmReference.Vm.ExecCmp | server/app/vm_reference.py:276-277 | CMP: the whole object ends in the machine the step function gives, or raises when that is None |
| VmReference.Vm.ExecCMov | server/app/vm_reference.py:278-281 | CMOV: the whole object ends in the machine the step function gives, or raises when that is None |
| VmReference.Vm.ExecJmp | server/app/vm_reference.py:282-283 | JMP: the whole object ends in the machine the step function gives, or raises when that is None |
| VmReference.Vm.ExecJcc | server/app/vm_reference.py:284-289 | JZ and JNZ: the whole object ends in the machine the step function gives, or raises when that is None |
| VmReference.Vm.ExecCall | server/app/vm_reference.py:290-291 | CALL: the whole object ends in the machine the step function gives, or raises when that is None |
| VmReference.Vm.ExecRet | server/app/vm_reference.py:292-293 | RET: the whole object ends in the machine the step function gives, or raises when that is None |
| VmReference.Vm.ExecHash | server/app/vm_reference.py:294-296 | HASH_ROUND: the whole object ends in the machine the step function gives, or raises when that is None |
| VmReference.Vm.ExecMix | server/app/vm_reference.py:297-298 | MIX: the whole object ends in the machine the step function gives, or raises when that is None |
| VmReference.Vm.ExecHalt | server/app/vm_reference.py:299-300 | HALT: the whole object ends in the machine the step function gives, or raises when that is None |
| VmReference.Vm.Exec | server/app/vm_reference.py:242-303 | each opcode byte, unknown ones included, has the effect of the step function on the whole object |
| VmReference.Vm.Run | server/app/vm_reference.py:230-240 | the loop ends where the run function ends, with 0xEE after 200000 turns, or raises |
| VmReference.Vm.Finish | server/app/vm_reference.py:305-317 | the result read out of the final registers, stack, flags, ip and path |
| VmReference.RunVm | server/app/vm_reference.py:334-335 | construct, run and read out: the result of the reference semantics |
| VmClient.Vm.constructor | client/src/vm/vm.cpp:100-105 | for every nonce a valid dispatch table on fresh arrays |
| VmClient.Vm.BuildDispatchTable | client/src/vm/vm.cpp:245-266 | slot perm[b] holds the handler of b, for all 256 bytes |
| VmClient.Vm.U8 | client/src/vm/vm.cpp:140-143 | a byte, or an exception |
| VmClient.Vm.U16 | client/src/vm/vm.cpp:144-149 | a pair, or an exception |
| VmClient.Vm.U64 | client/src/vm/vm.cpp:150-155 | a word, or an exception when it runs past the end |
| VmClient.Vm.HNop | client/src/vm/vm.cpp:188 | NOP: the arrays and fields end in the machine the step function gives, or the handler throws when that is None |
| VmClient.Vm.HMovRI | client/src/vm/vm.cpp:189 | MOV_RI: the arrays and fields end in the machine the step function gives, or the handler throws when that is None |
| VmClient.Vm.HMovRR | client/src/vm/vm.cpp:190 | MOV_RR: the arrays and fields end in the machine the step function gives, or the handler throws when that is None |
| VmClient.Vm.HLoad | client/src/vm/vm.cpp:191-194 | LOAD: the arrays and fields end in the machine the step function gives, or the handler throws when that is None |
| VmClient.Vm.HStore | client/src/vm/vm.cpp:195-198 | STORE: the arrays and fields end in the machine the step function gives, or the handler throws when that is None |
| VmClient.Vm.HAlu3 | client/src/vm/vm.cpp:199-210 | the ALU handler: the arrays and fields end in the machine the step function gives, or the handler throws when that is None; what each opcode computes is fixed by the laws of `OpcodeLaws` |
| VmClient.Vm.HNot | client/src/vm/vm.cpp:211 | NOT: the arrays and fields end in the machine the step function gives, or the handler throws when that is None |
| VmClient.Vm.HShift | client/src/vm/vm.cpp:212-221 | the shift handler: the arrays and fields end in the machine the step function gives, or the handler throws when that is None |
| VmClient.Vm.HCmp | client/src/vm/vm.cpp:222 | CMP: the arrays and fields end in the machine the step function gives, or the handler throws when that is None |
| VmClient.Vm.HCmov | client/src/vm/vm.cpp:223-226 | CMOV: the arrays and fields end in the machine the step function gives, or the handler throws when that is None |
| VmClient.Vm.HJmp | client/src/vm/vm.cpp:227 | JMP: the arrays and fields end in the machine the step function gives, or the handler throws when that is None |
| VmClient.Vm.HJcc | client/src/vm/vm.cpp:228-233 | JZ and JNZ: the arrays and fields end in the machine the step function gives, or the handler throws when that is None |
| VmClient.Vm.HCall | client/src/vm/vm.cpp:234 | CALL: the arrays and fields end in the machine the step function gives, or the handler throws when that is None |
| VmClient.Vm.HRet | client/src/vm/vm.cpp:235-239 | RET: the arrays and fields end in the machine the step function gives, or the handler throws when that is None |
| VmClient.Vm.HHash | client/src/vm/vm.cpp:240 | HASH_ROUND: the arrays and fields end in the machine the step function gives, or the handler throws when that is None |
| VmClient.Vm.HMix | client/src/vm/vm.cpp:241 | MIX: the arrays and fields end in the machine the step function gives, or the handler throws when that is None |
| VmClient.Vm.HHalt | client/src/vm/vm.cpp:242 | HALT: the arrays and fields end in the machine the step function gives, or the handler throws when that is None |
| VmClient.Vm.HUnknown | client/src/vm/vm.cpp:243 | an unknown opcode: the arrays and fields end in the machine the step function gives, or the handler throws when that is None |
| VmClient.FoldTruncates | client/src/vm/vm.cpp:181-184 | the 64-bit product cut to 32 bits is the 32-bit fold of the server |
| VmClient.Vm.Lookup | client/src/vm/vm.cpp:119 | table[perm[op]] is the handler registered for op |
| VmClient.Vm.Dispatch | client/src/vm/vm.cpp:115-119 | the indirect call has the effect of the step function for every opcode byte |
| VmClient.Vm.Run | client/src/vm/vm.cpp:107-122 | whatever the permutation, the loop ends where the run function ends, or throws |
| VmClient.Vm.Finish | client/src/vm/vm.cpp:268-281 | the same read-out as the server's |
| VmClient.RunVm | client/src/vm/vm.cpp:284-292 | for every nonce the result of the strict semantics |
| Dispatch.BlakeCtrKeystream | server/app/crypto_box.py:132-139 | the loop gives the first bytes of the block sequence |
| Dispatch.KeystreamAt | server/app/crypto_box.py:132-139 | byte i of every keystream is byte i mod 64 of the keyed 64-byte hash of the domain and i / 64 in eight bytes |
| Dispatch.StreamXorTwice | server/app/crypto_box.py:146-148 | applying the stream cipher twice gives the data back, for every key and domain |
| Dispatch.ShufflePermutes | client/src/vm/vm.cpp:81-84 | for every keystream the shuffle permutes 0..255 |
| Dispatch.ShuffleInPlace | client/src/vm/vm.cpp:81-84 | the in-place loop computes that shuffle |
| Dispatch.HandlerPermutation | client/src/vm/vm.cpp:75-86 | for every nonce a fresh array that permutes 0..255 |
| VmInputs.Pack | client/src/vm/vm.cpp:46-70 | the array of 64 words: where each input sits, cut or zero-filled |
| VmInputs.PackedLayout | server/app/vm_reference.py:134-154 | for all inputs: the capped length in word 0, the fields in words 1, 9, 13, 15 and 17 on as big-endian words of their zero-filled or cut bytes, the hash of the domain in word 21, zeros behind |
| VmInputs.LoadBytecode | server/app/vm_reference.py:323-326 | decrypting the embedded blob gives the assembled program, for every key |
| VmInputs.BlobAt | server/app/crypto_box.py:146-148 | byte i of the embedded blob is byte i of the program under the keystream of the blob domain |
| VmInputs.BothVmsAgree | server/app/vm_reference.py:329-335 | on all inputs neither engine raises and they give the same result |
| VmInputs.RunVmServer | server/app/vm_reference.py:329-335 | `run_vm` of the server is the non-strict result on the packed inputs |
| VmInputs.RunVmClient | client/src/vm/vm.cpp:284-292 | `run_vm` of the client is the strict result on the packed inputs, for every nonce |
| FrameFormat.ParseSerialize | server/app/protocol.py:54-68 | parsing undoes serializing for every frame with fields of the right size and at most 2^20 payload bytes |
| FrameFormat.SerializeParse | server/app/protocol.py:71-102 | an accepted buffer is the serialization of the frame it parses to |
| FrameFormat.ParseAcceptsExactly | server/app/protocol.py:71-102 | a buffer is accepted if and only if it is the serialization of a well-formed frame |
| FrameFormat.PrefixFree | server/app/protocol.py:71-102 | no accepted buffer is a proper prefix of another |
| FrameFormat.AcceptedBytes | server/app/protocol.py:71-102 | a buffer is accepted if and only if it has at least 106 bytes, starts with 52 47 36 00 06, and its length field is at most 2^20 and exactly what is left |
| FrameFormat.FieldsOf | server/app/protocol.py:71-102 | where each field of an accepted buffer lies, that its first 58 bytes are the associated data and that all but its last 32 are the MAC input |
| FrameFormat.PutBe64 | client/src/common.hpp:50-54 | the shift loop gives the eight big-endian bytes |
| FrameFormat.GetBe64 | client/src/common.hpp:64-68 | the loop reads the number back |
| FrameFormat.SerializeClient | client/src/net/binary_frame.cpp:10-33 | the appends build the serialization |
| FrameFormat.Reader.Take | client/src/net/binary_frame.cpp:39-44 | the next n bytes and the moved cursor, or an exception and the old cursor |
| FrameFormat.Reader.TakeSlice | server/app/protocol.py:76-82 | the same by slicing first and comparing lengths afterwards |
| FrameFormat.ParseClient | client/src/net/binary_frame.cpp:35-61 | the cursor-moving parser is `Parse` |
| FrameFormat.ParseServer | server/app/protocol.py:71-102 | the server's parser is the same function, so that the two programs agree on every buffer |
| Transcripts.EqualTranscriptsCollide | server/app/protocol.py:105-132 | two different histories of frames, of whatever lengths, behind one transcript state yield two concrete byte strings that collide under the primitive SHA-256 |
| Transcripts.OpenSealed | server/app/protocol.py:118-132 | what one side seals the other opens, and both states become equal |
| Transcripts.OpensExactly | server/app/protocol.py:128-132 | the bytes of a frame open if and only if their last 32 are the primitive HMAC over the state and all others; the next state is then the primitive hash of state and bytes |
| Transcripts.MacBindsHistory | server/app/protocol.py:105-132 | when two frames with one MAC open under one key behind two histories, history and frame are the same or two concrete inputs collide under HMAC or SHA-256 |
| Transcripts.Transcript.constructor | client/src/challenge/transcript.cpp:11-13 | the state starts as the hash of the seed |
| Transcripts.Transcript.Absorb | client/src/challenge/transcript.cpp:21-25 | the state rolls over the whole frame |
| Transcripts.Transcript.SealFrame | client/src/challenge/transcript.cpp:27-41 | the frame carries the MAC of the old state and everything before the MAC, and is absorbed |
| Transcripts.Transcript.OpenFrame | client/src/challenge/transcript.cpp:43-48 | a frame is accepted if and only if its MAC is the primitive HMAC over the old state and its other bytes; the state then absorbs it and stays as it was otherwise |
| Kdf.ExpandServer | server/app/crypto_box.py:52-60 | the loop is HKDF-Expand of RFC 5869 and raises exactly beyond 255 blocks |
| Kdf.ExpandClient | client/src/crypto/kdf.cpp:14-28 | the loop with the wrapping 8-bit counter gives the same bytes |
| Kdf.ExpandedBlock | server/app/crypto_box.py:52-60 | block i of every output is the primitive HMAC of block i - 1, the info and the byte i (section 2.3 of RFC 5869) |
| Kdf.KeysAre | server/app/challenge_logic.py:39-49 | the seven keys as primitive HMACs of their labels under the extracted key |
| Channel.AeadRoundTrip | server/app/challenge_logic.py:73-90 | a sealed payload opens to itself on the same transcript, and both sides end in the same state |
| Channel.PlainRoundTrip | server/app/challenge_logic.py:61-70 | the same for frames in the clear |
| Channel.DeliversExactly | server/app/challenge_logic.py:82-90 | the bytes of an encrypted frame open if and only if the MAC in the last 32 is right and the primitive decrypts the payload with the first 58 bytes as associated data; what they open to, and the next state |
| Channel.AeadSeal | client/src/net/protocol.cpp:51-64 | sealing on a transcript object |
| Channel.AeadOpen | client/src/net/protocol.cpp:66-71 | opening on a transcript object: a MAC that is not the primitive HMAC gives nothing and moves nothing; otherwise the transcript absorbs the frame and the payload is what decrypts, or nothing |
| Recency.StoreIsLru | server/app/sessions.py:45-64 | after any touches the store holds exactly the 1024 most recently touched ids, in that order |
| Recency.DroppedExactly | server/app/sessions.py:51-57 | after its own touch an id is gone if and only if at least 1024 different other ids were touched |
| ServerObjects.SessionObject.constructor | server/app/sessions.py:18-32 | a fresh session |
| ServerObjects.SessionObject.NextServerCounter | server/app/sessions.py:34-36 | counts up and returns the new value |
| ServerObjects.SessionObject.AcceptClientCounter | server/app/sessions.py:38-42 | accepts exactly the counters that grow, and changes nothing otherwise |
| ServerObjects.SessionStore.constructor | server/app/sessions.py:48-49 | an empty store |
| ServerObjects.SessionStore.Create | server/app/sessions.py:51-57 | a new object takes the place of the id, at the end of the order; the oldest goes when there are more than 1024; all other objects stay |
| ServerObjects.SessionStore.Evict | server/app/sessions.py:55-56 | the loop keeps the last 1024 ids and their objects |
| ServerObjects.SessionStore.Get | server/app/sessions.py:59-64 | an unknown id raises and touches nothing; a known one moves to the end |
| Handlers.ParseHelloPayload | server/app/challenge_logic.py:96-105 | the three fields, or an exception; bytes behind the name are ignored |
| Handlers.ExpandKeys | server/app/challenge_logic.py:39-49 | the seven session keys |
| Handlers.Challenge | server/app/challenge_logic.py:129-148 | challenge, keys and session fields, or an exception on a bad public key before any of them changes |
| Handlers.HelloOn | server/app/challenge_logic.py:116-148 | HELLO on the new session, with the effects it keeps when it raises |
| Handlers.CheckProof1 | server/app/challenge_logic.py:185-203 | the license, VM and proof-1 checks hold exactly when the evidence predicate does, which `Evidence.ProvesBytes` says byte by byte |
| Handlers.AnswerProof | server/app/challenge_logic.py:208-221 | the server's proof frame and the five fields it changes |
| Handlers.Prove | server/app/challenge_logic.py:162-222 | everything behind the accepted counter of an exchange |
| Handlers.ExchangeOn | server/app/challenge_logic.py:159-222 | an exchange on a session object |
| Handlers.SealFlag | server/app/challenge_logic.py:248-253 | the inner layer around the flag |
| Handlers.Release | server/app/challenge_logic.py:232-259 | everything behind the accepted counter of a finalize |
| Handlers.FinalizeOn | server/app/challenge_logic.py:230-259 | a finalize on a session object |
| Handlers.HandleHello | server/app/challenge_logic.py:111-148 | for arbitrary bytes: the new store and the reply are those of the request model |
| Handlers.HandleExchange | server/app/challenge_logic.py:154-222 | for arbitrary bytes: the new store and the reply are those of the request model |
| Handlers.HandleFinalize | server/app/challenge_logic.py:225-259 | for arbitrary bytes: the new store and the reply are those of the request model |
| ServerRuns.HelloKeeps | server/app/challenge_logic.py:111-148 | a HELLO leaves a session without a proof and with at most its own round in its log |
| ServerRuns.LaterKeeps | server/app/challenge_logic.py:154-259 | every exchange and finalize, answered or not, keeps the session fitting its log |
| ServerRuns.RejectionChangesCounterOnly | server/app/challenge_logic.py:154-259 | a rejected exchange or finalize changes nothing in the session but the client counter, and that only upwards |
| ServerSafety.SessionsFitTheirLogs | server/app/challenge_logic.py:139-148 | over every run, for every stored session: the transcript is the rolling fold of the frames it accepted and emitted, the server counter is the number of rounds and at most the client counter, which is below 2^64, the emitted frames carry counters 1, 2, ..., the accepted counters strictly increase, and the salt is the transcript of the first round |
| ServerSafety.OrderOfRun | server/app/sessions.py:45-64 | over every run the store is valid and ordered by the touches of the requests |
| ServerSafety.UntouchedSessionsStay | server/app/challenge_logic.py:154-259 | a request leaves every session it does not touch as it was, or the store drops it |
| Evidence.AnsweredExactly | server/app/challenge_logic.py:111-259 | for every store and request: it is answered if and only if its bytes are framed, its type fits, its session is there with a smaller counter, and its bytes show what the endpoint demands, all said of bytes and primitives |
| Evidence.HelloShows | server/app/challenge_logic.py:111-148 | a HELLO is answered if and only if its counter is positive, its MAC is right, its name is well-formed and its key is usable; session and reply are then settled by the bytes of both, signature and key schedule included; otherwise no keys are left |
| Evidence.ProvesBytes | server/app/challenge_logic.py:166-201 | the three checks of an exchange, byte by byte: the license demands, the outputs of the server's engine at bytes 25 to 96, and the HMAC at bytes 97 to 128 over label, username, the 97 bytes and the session |
| Evidence.ExchangeShows | server/app/challenge_logic.py:154-219 | an exchange is answered if and only if its counter is new and its bytes open to such a payload; an unanswered one leaves proof, challenge2 and digest alone; neither touches what HELLO set |
| Evidence.ExchangeAnswers | server/app/challenge_logic.py:206-219 | the reply of an exchange: type, id, counter, MAC over T3, and inside the HMAC over T3, digest and the challenge2 that follows it; transcript and counters of the session move on |
| Evidence.FinalizeShows | server/app/challenge_logic.py:225-246 | a finalize is answered if and only if its counter is new, a proof is there and its bytes open to the HMAC over the session's own values |
| Evidence.FinalizeAnswers | server/app/challenge_logic.py:248-259 | the reply of a finalize opens in two layers to the flag, the inner one under the key of T5; transcript and counters of the session move on |
| FlagEvidence.FlagNeedsProof | server/app/challenge_logic.py:225-259 | over every run: an answered finalize comes after an answered HELLO and an answered exchange on the same session, with no HELLO and no other answered exchange since; HELLO and reply settled username, T2 and the seven keys; the exchange carried, under a right MAC, a license with the fragment of that username, its parity and checksum, the digest, state hash, path id and halt code of the server's own engine, and the HMAC over all of it; and the finalize carried the HMAC over the challenge2 drawn at that exchange, that digest and the handshake |
| FlagEvidence.LastHelloIsLast | server/app/challenge_logic.py:116-148 | the HELLO found is the latest one on the session |
| FlagEvidence.LastExchangeIsLast | server/app/challenge_logic.py:215-221 | the exchange found is the latest answered one since the last HELLO |
| ClientEvidence.HelloSent | client/src/net/protocol.cpp:120-130 | the bytes of the HELLO: type 1, counter 1, public MAC, and key, random, length and name in the clear |
| ClientEvidence.ChallengeShows | client/src/net/protocol.cpp:132-156 | for all reply bytes: accepted if and only if framed, with the right MAC at T1, at least 112 bytes, a valid signature over label, T1, public key and random, and a usable key; the keys are then the HMACs of the labels under the secret and T2, and the VM result is the engine's |
| ClientEvidence.FirstProofSent | client/src/net/protocol.cpp:158-176 | the proof-1 frame: type 3, counter 2, MAC over T2, and inside license, VM outputs and the HMAC over label, username, both and the session |
| ClientEvidence.ServerProofShows | client/src/net/protocol.cpp:179-201 | for all reply bytes: accepted if and only if framed, authentic at T3 and 48 bytes whose first 32 are the HMAC over T3, the client's own digest and the other 16 |
| ClientEvidence.SecondProofSent | client/src/net/protocol.cpp:195-200 | the proof-2 frame: type 5, counter 3, MAC over T4, and inside the HMAC over challenge2, random, public key, digest and T2 |
| ClientEvidence.SealedFlagShows | client/src/net/protocol.cpp:203-217 | for all reply bytes: what the client returns is what the primitive decrypts under the key of T5 from a framed, authentic reply of at least 40 bytes, and nothing otherwise |
| Client.ExpandClientKeys | client/src/net/protocol.cpp:27-34 | the seven session keys |
| Client.SendHello | client/src/net/protocol.cpp:120-130 | the HELLO frame, and the transcript T1 |
| Client.Prove1 | client/src/net/protocol.cpp:149-177 | keys, VM run and the first proof frame |
| Client.AcceptChallenge | client/src/net/protocol.cpp:132-177 | the challenge is accepted if and only if it is framed, its MAC is right, the signature over T1, public key and random verifies and the key is usable; then the client has the model's keys and first proof, and the transcript moves to T3 |
| Client.AcceptProof | client/src/net/protocol.cpp:179-201 | the server's proof is accepted if and only if it is framed, authentic and 48 bytes whose first 32 are the HMAC over T3, the client's own digest and the rest; the transcript moves to T5 |
| Client.OpenFlag | client/src/net/protocol.cpp:203-217 | both layers are opened and the transcript moves behind the sealed flag, or an exception |
| Client.CollectFlag | client/src/net/protocol.cpp:195-217 | against the live handlers: the finalize succeeds, the client has the flag, and the stored session's transcript equals the client's |
| Client.Greet | client/src/net/protocol.cpp:120-177 | against the live handlers: HELLO succeeds and both sides hold the same T2 and the same seven keys |
| Client.ExchangeProofs | client/src/net/protocol.cpp:178-201 | against the live handlers: the exchange succeeds and both sides hold the same T4 and proof-2 inputs |
| Client.RunSession | client/src/net/protocol.cpp:113-217 | against the live handlers, on any store, for all randomness: an honest user gets the flag |
| HonestRun.HelloStage | client/src/net/protocol.cpp:120-156 | the server answers an honest HELLO, the client accepts the answer, and they agree on T2, all keys and the server's half |
| HonestRun.ExchangeStage | client/src/net/protocol.cpp:158-193 | the server answers the honest first proof, the client accepts the answer, and they agree on T4 |
| HonestRun.FinalizeStage | client/src/net/protocol.cpp:195-217 | the server answers the honest second proof with what the client opens to the flag, and its transcript is T5 with that frame absorbed |
| Interleaving.SurvivesExactly | server/app/sessions.py:45-64 | between two of its calls a session survives unchanged if and only if foreign requests touch fewer than 1024 different ids |
| Interleaving.HonestExchange | client/src/net/protocol.cpp:113-193 | with arbitrary foreign requests after the HELLO: the exchange is answered, and its answer accepted, if and only if they touched fewer than 1024 ids |
| Interleaving.HonestFinalize | client/src/net/protocol.cpp:195-217 | with arbitrary foreign requests after the exchange: the finalize is answered, and the answer opens to the flag, if and only if they touched fewer than 1024 ids |
| Interleaving.HonestClientGetsFlag | client/src/net/protocol.cpp:113-217 | the whole honest run returns the flag, for all randomness, every canonical username and its license, from any store, when the foreign requests in each of the two gaps touch fewer than 1024 different ids |
| Blake2bRounds.GInverts | client/src/crypto/crypto.cpp:66-75 | the inverse steps undo G, on both sides |
| Blake2bRounds.EachWordOnce | client/src/crypto/crypto.cpp:30-41 | each row of the schedule is a permutation of 0..15, so that a round uses each message word once |
| Blake2bRounds.MixingPermutes | client/src/crypto/crypto.cpp:66-86 | for each message block the mixing is a permutation of the 16-word state, undone by the inverse steps in reverse order |
| Blake2bStream.CounterIs | client/src/crypto/crypto.cpp:90-93 | the two words of the counter stand for the byte total modulo 2^128 |
| Blake2bStream.CounterAdvances | client/src/crypto/crypto.cpp:90-93 | adding with a carry keeps that, for every total |
| Blake2bStream.MixLanes | client/src/crypto/crypto.cpp:66-75 | the eight statements on the array are G |
| Blake2bStream.Round | client/src/crypto/crypto.cpp:76-86 | the eight calls of a round are its eight steps |
| Blake2bStream.LoadWord | client/src/crypto/crypto.cpp:61-65 | the byte loop loads a little-endian word |
| Blake2bStream.Blake2b.constructor | client/src/crypto/crypto.cpp:95-99 | the parameter word enters h[0]; nothing is fed |
| Blake2bStream.Blake2b.Inc | client/src/crypto/crypto.cpp:90-93 | the counter moves on by n |
| Blake2bStream.Blake2b.Load | client/src/crypto/crypto.cpp:55-60 | the 16-word state of a compression |
| Blake2bStream.Blake2b.Compress | client/src/crypto/crypto.cpp:54-88 | the state becomes F of the block in the buffer (section 3.2 of RFC 7693) |
| Blake2bStream.Blake2b.Flush | client/src/crypto/crypto.cpp:103-107 | a full buffer becomes one more chained block |
| Blake2bStream.Blake2b.Update | client/src/crypto/crypto.cpp:101-110 | only the bytes fed matter, not the chunks; the last block is never compressed early |
| Blake2bStream.Blake2b.Final | client/src/crypto/crypto.cpp:112-118 | the digest of everything fed, by the block definition |
| Blake2bStream.Blake2bOf | client/src/crypto/crypto.cpp:123-137 | for all data, keys up to 64 bytes and digests of 1 to 64 bytes: the hash of section 3.3 of RFC 7693; an exception otherwise |
| Blake2bConformance.AbcDigest | client/src/crypto/crypto.cpp:54-137 | the definition gives the test vector of appendix A of RFC 7693, all 64 bytes of BLAKE2b-512("abc"), computed through the twelve rounds |
| Blake2bConformance.IVIsRoots | client/src/crypto/crypto.cpp:22-26 | section 2.6 of RFC 7693: each IV word is the first 64 bits of the fractional part of the square root of its prime |
| Blake2bConformance.Schedule0 | client/src/crypto/crypto.cpp:29-31 | rows 0 to 2 of the message schedule in section 2.7, as hexadecimal digits |
| Blake2bConformance.Schedule3 | client/src/crypto/crypto.cpp:32-34 | rows 3 to 5 |
| Blake2bConformance.Schedule6 | client/src/crypto/crypto.cpp:35-37 | rows 6 to 8 |
| Blake2bConformance.Schedule9 | client/src/crypto/crypto.cpp:38-40 | rows 9 to 11; the last two are rows 0 and 1 again |
| Blake2bConformance.LoadedLanes | client/src/crypto/crypto.cpp:55-60 | the sixteen lanes: state, IV, counter words in 12 and 13; the last block differs from any other in lane 14 alone |
| Blake2bConformance.RoundMixes | client/src/crypto/crypto.cpp:76-86 | for every state and message: eight steps are G on the four columns and then on the four diagonals |
| Blake2bConformance.WordInOutput | client/src/crypto/crypto.cpp:116-117 | bytes 8 k to 8 k + 7 of a digest are word k, least significant byte first |
| Base64.DecodeEncode | client/src/crypto/base64.cpp:21-65 | decoding undoes encoding for every byte string |
| Base64.BlanksDoNotCount | client/src/crypto/base64.cpp:48-65 | blanks anywhere in the text do not change what it decodes to |
| Base64.AlphabetIs | client/src/crypto/base64.cpp:9-18 | the alphabet runs from A, a and 0 and ends with + and / |
| Base64.TestVectors | client/src/crypto/base64.cpp:21-46 | two test vectors of section 10 of RFC 4648 |
| Base64.Encode | client/src/crypto/base64.cpp:21-46 | the three-byte loop and its tails give the bits of the data, zero-filled, as letters with padding (section 4 of RFC 4648) |
| Base64.Push | client/src/crypto/base64.cpp:56-61 | one letter keeps the meaning of output and accumulator: the wrap modulo 2^32 loses no pending bit |
| Base64.Decode | client/src/crypto/base64.cpp:48-65 | the loop regroups the letters before the first '=' into bytes, or throws on any other character |
| Usernames.NormalizedIsCanonical | server/app/verifier.py:43-57 | accepted names come out canonical, and exactly the canonical names are fixed points |
| Usernames.NormalizedTwice | server/app/verifier.py:43-57 | normalizing twice is normalizing once |
| Usernames.SpaceAndCaseDoNotMatter | server/app/verifier.py:43-57 | spaces around a name and the case of its letters do not change the outcome |
| Usernames.CanonicalCodes | server/app/verifier.py:43-57 | the canonical names by codes: 1 to 64 of 0x20 to 0x7E, no capital, no space at an end |
| Usernames.NormalizedCodes | server/app/verifier.py:46-57 | a name between blanks is accepted if and only if it has at most 64 characters from 0x20 to 0x7E; it comes out with 32 added to its capitals |
| Usernames.NormalizeClient | client/src/challenge/license_format.cpp:41-57 | the two-index trim and the loop are the normalization |
| Usernames.NormalizeServer | server/app/verifier.py:43-57 | the server computes the same function |
| Licenses.ParityOf | server/app/verifier.py:97-99 | the loop is the exclusive or of all bytes |
| Licenses.ValidateLicense | server/app/verifier.py:150-163 | of the structures of any length, accepts exactly those of at least 25 bytes with version 6, the username's fragment, the parity and the checksum |
| Licenses.BuildLicense | server/app/verifier.py:87-105 | the license of a username |
| Licenses.BuiltIsAccepted | server/app/verifier.py:87-105 | every built license is accepted for its username |
| Licenses.BuiltFields | server/app/verifier.py:87-105 | the fields of a built license as hashes of the primitive, with their labels, keys and sizes |
| Licenses.ParityBits | server/app/verifier.py:97-99 | each bit of the parity byte says whether an odd number of the bytes has it |
| Licenses.ChangedByteIsRejected | server/app/verifier.py:150-163 | no accepted structure stays accepted when any one of bytes 0 to 17 changes, whatever BLAKE2b is, for any username |
| Licenses.AcceptedForTwoNames | server/app/verifier.py:150-163 | a structure is accepted for a second username if and only if the two names have the same 4-byte fragment |
| LicenseText.ClientUndoesEncode | client/src/challenge/license_format.cpp:59-79 | the client decodes every encoded structure of version 6 to itself and refuses every other version |
| LicenseText.EncodeUndoesClient | client/src/challenge/license_format.cpp:59-79 | encoding what the client accepted gives the text back without its blanks |
| LicenseText.ServerAcceptsExactly | server/app/verifier.py:117-131 | on every text: the server decodes it to a structure if and only if stripping its ends leaves that structure's encoding |
| LicenseText.ClientAcceptsExactly | client/src/challenge/license_format.cpp:59-79 | on every text: the client decodes it to a structure if and only if that is of version 6 and dropping all blanks leaves its encoding |
| LicenseText.DecodersDifferExactly | client/src/challenge/license_format.cpp:59-79 | on every text, up to the version check: the decoders differ if and only if the stripped and the unblanked text differ and one of them is an encoding of version 6 |
| LicenseText.BlankInside | client/src/challenge/license_format.cpp:64 | a text the client accepts is refused by the server exactly when a blank stands inside the encoding |
| LicenseText.ForeignWhite | server/app/verifier.py:118 | a text that the server decodes to version 6 is refused by the client exactly when it holds white space that is no blank |
| LicenseText.DecodersAgree | server/app/verifier.py:117-131 | on text without white space both decoders accept the same structures, up to the client's version check |
| LicenseText.ServerUndoesEncode | server/app/verifier.py:108-131 | the server decodes every encoded structure to itself |
| LicenseText.AlphabetIs | client/src/challenge/license_format.cpp:14-37 | the base32 alphabet, and the vector "fooba" of section 10 of RFC 4648 |
| LicenseText.TextLayout | server/app/verifier.py:108-114 | every encoding is RG6 and five blocks, with dashes between them |
| LicenseText.DecodeBlock | client/src/challenge/license_format.cpp:23-37 | the accumulator loop decodes a block, or throws |
| LicenseText.EncodeLicense | server/app/verifier.py:108-114 | prefix and five blocks joined by dashes |
| LicenseText.SplitClient | client/src/challenge/license_format.cpp:61-68 | one pass splits the text without its blanks at the dashes |
| LicenseText.DecodeClient | client/src/challenge/license_format.cpp:59-79 | the client's decoder |
| LicenseText.DecodeServer | server/app/verifier.py:117-131 | the server's decoder |
| Splicer.RorRol | tools/generate_string_splices.py:36-38 | the inverse rotation undoes `rol8` for every byte and amount |
| Splicer.UnhideHide | tools/generate_string_splices.py:70-71 | the inverse transform undoes add, exclusive or and rotation |
| Splicer.RolIsProduct | tools/generate_string_splices.py:36-38 | rotating a byte below 255 by r multiplies it by 2^r modulo 255 |
| Splicer.TransformIs | tools/generate_string_splices.py:70-71 | a hidden byte turned back and cleared of the mask is byte plus offset modulo 256, and reading undoes exactly that |
| Splicer.EmitFragment | tools/generate_string_splices.py:48-54 | the fragment lies in the grown pool and decodes to its chunk |
| Splicer.CutString | tools/generate_string_splices.py:58-75 | the pieces of a string, in order, decode to it; all but the last have two to five bytes, the last one to five |
| Splicer.CutStrings | tools/generate_string_splices.py:57-75 | every string is cut into consecutive pieces that decode to it |
| Splicer.AddDecoys | tools/generate_string_splices.py:77-81 | decoys only grow the pool |
| Splicer.Shuffle | tools/generate_string_splices.py:90 | every outcome of the in-place shuffle is a permutation, with its inverse |
| Splicer.Invert | tools/generate_string_splices.py:91-93 | the loop computes the inverse index |
| Splicer.Flatten | tools/generate_string_splices.py:96-104 | the flat index lists the shuffled positions of the pieces string by string |
| Splicer.Generate | tools/generate_string_splices.py:41-106 | for every outcome of the random choices: following the tables rebuilds every string, no fragment is referred to twice, those referred to lie in the part of the pool that holds the strings, and the others, as many as there are decoys, lie behind it |

## Left out

- The HTTP layer, JSON, command lines and prompts: a handler takes and returns the raw frame; base64 in between is
  proved to be the identity (`Base64.DecodeEncode`).
- Unicode NFC: on the Latin-1 strings the server decodes from the wire it is the identity, and so it is modelled.
- The insides of the library primitives, and that the server's hashlib BLAKE2b is the function of RFC 7693.
- `Blake2bStream.Blake2bOf` is not connected to `Crypto.Primitives`: the protocol results hold for every BLAKE2b.
- Nonce uniqueness, secrecy, timing and probability: only functional and binding results are stated.
- Anti-debug checks and decoy strings of the client: their results are discarded.
- Opaque predicates and the obfuscation of literals: identities of one expression that the modelled code does not
  depend on.
- The encrypted blob as finite data: the program is modelled from `build_program`, the blob as its encryption.
- Text rendering: mnemonics and operands of the disassembler, and the header text of the splicer.
- The C++ decoder of the string splicer is not part of this model: its tables are decoded by the inverse transform.
- Overflow of the server counter's eight-byte field: the counter is unbounded in the model, but
  `ServerSafety.SessionsFitTheirLogs` keeps it at most the client counter, which is below 2^64.
- Overflow of ip and of the stack: both are unbounded in the model, as in Python; 200000 turns cannot reach the
  bounds of the C++ types.
- The one long conditional of the Python engine: one method per arm stands for it, on the same object.
- Which exception was raised, and the text of errors: raising is modelled as no reply, with the effects that stay.
- The length field of proof 1 for names of 65536 bytes or more: a name that reaches it has at most 64.
- Random sources that return fewer bytes than asked for: the honest run and the run invariants assume the lengths.
