# Verification of the secure-boot SoC

This project models four parts of the system in Dafny and proves what they are for.

1. **SHA3-512 engine** (`Project/sha3_real_wrapper.v` and the core below it). A word FIFO feeds a
   padder that fills the next 18-word block while the permutation works on the current one.
   Whatever the arrival pattern, `done_o` means that `digest_o` is the FIPS 202 digest of the
   message pushed since `init_i`, and `done_o` comes within a fixed number of cycles.
2. **AES**. The key schedule, the iterative encrypter and decrypter, the 15-stage pipeline and the
   counter-mode stream, against FIPS 197 and section 6.5 of NIST SP 800-38A.
3. **TCM memory system** (`top_tcm_wrapper`). The RAM shared by fetches, CPU and AXI is one atomic
   memory; bursts become beats and beats become answers, in order and without loss; the CPU port
   answers in order across its two targets.
4. **ISA simulator, privileged part** (`isa_sim/riscv.cpp`). Translation against Sv32, traps and
   returns across privilege levels, and interrupt selection.

## How the model is built

One step is one clock edge: every register takes a value computed from the registers before the
edge, and inputs are arbitrary at every edge. A module with registers is a class with those
registers as fields; `Abs()` gives the abstract state (a queue, a count, a list of words), and the
method `Clock` is proved to make exactly the step `Next` of that abstract state. Whole runs are
sequences of inputs folded with `Next` (`Sha3Engine.Execute`, `AesSequencer.Run`,
`AesPipeline.After`, `AesCtr.StreamAfter`, `TcmBridgeTheorems.RunFrom`, `TcmMemRun.After`,
`DportAxiRun.PortRunOf`, `DportMuxRun.SystemAfter`, `CpuPortRun.CpuRun`), and the theorems are about
all of them. An asynchronous reset is an edge with reset set. Combinational modules are functions.

The standards are written down independently of the hardware and in their own terms: `Fips202`
(bits of a 5 x 5 x 64 array, the offsets walk, the LFSR, pad10*1, the sponge on bit strings),
`AesField.GfMul`, `AesTables.Affine`, `AesKeySchedule.ScheduleWord`, `AesSequencer.Cascade` and
`IsaTranslate.Sv32`.

Hypotheses about the surroundings, each stated where it is used:

- SHA3: a message is everything pushed after an `init_i` up to the word marked last, and
  `byte_num` counts the valid bytes of that last word (0 to 3). Nothing is assumed about timing: a
  word offered when `input_ready_o` is low is refused and sets `overflow_o`.
- AES: a theorem about a block in flight assumes no reset and no `key_load` before it has left.
- AXI masters of the memory: VALID and payload held until READY, and a write beat taken together with
  its address is the first of its burst (`TcmBridgeRun.Peers.BusAllows`); strobes are arbitrary. AXI
  slaves of the CPU port: no response without an outstanding transaction (`DportAxiRun.SlaveObeys`).
- Simulator: the page tables lie within 32-bit addresses and have no pointer at the second level
  (`IsaTranslate.TablesFit`).

Where the code does not meet its promise, the project says so with the exact condition:

- a word pushed after one marked last, without a new `init_i`, is accepted but not digested: the digest
  stays that of the first message (`Sha3Theorems.DigestCoversAllIff`,
  `Sha3Feeding.LaterWordsAreIgnored`, and a run in `Sha3Feeding.SecondMessageShowsFirst`);
- a write burst with a beat without strobes may stay unanswered: `TcmStrobes.AnsweredIffStrobed` says
  exactly when, `TcmStall.IdleMemoryStalls` that an idle memory does not even take it, and
  `TcmStall.LostBehindRead` gives a run of the whole memory in which one is lost;
- a flush, invalidate or write-back to an external address is counted but never answered, after which
  the memory takes a request only when the count has come round modulo 32
  (`DportMuxRun.MemoryReturnsModulo32`, `DportMuxRun.FlushesLockAndUnlock`);
- in bare mode a user access faults instead of passing unchanged
  (`IsaTranslate.BareModeFaultsUsers`); a misaligned superpage is used instead of faulting, and a missing
  page or a supervisor access to a user page ends the simulation instead of faulting
  (`IsaTranslate.TranslationIsSv32`).

The comment in `Project/keccak.v` that a word not marked last counts 8 bytes is out of date; the
code, and the model, use 4.

## Files

- SHA3: `Bits`, `Fips202`, `KeccakRound`, `KeccakConstants`, `KeccakPadder`, `KeccakPermutation`,
  `KeccakCore`, `Sha3Message` (padding), `Sha3Absorb` (sponge), `Sha3Core` (run invariant of the
  core), `Ring`, `Sha3Engine`, `Sha3Wrapper`, `Sha3Run`, `Sha3Liveness`, `Sha3Theorems`, `Sha3Feeding`
  (runs that users can make), `Sha3Inputs` (the ports alone).
- AES: `AesField`, `AesTables`, `AesRound`, `AesSequencer`, `AesCipher`, `AesMachines`,
  `AesKeySchedule`, `AesPipeline`, `AesCtr`, `AesCtrSession`, `AesCounterBlock`, `AesStream`.
- TCM: `TcmTypes`, `TcmFifo`, `TcmBridge`, `TcmBridgeRun`, `TcmBridgeTheorems`, `TcmRam`, `TcmMem`,
  `TcmMemRun`, `TcmAxiRun`, `TcmStrobes`, `TcmStall`, `TcmProgress`, `DportAxi`,
  `DportAxiRun`, `DportMux`, `DportMuxRun`, `CpuPortRun`.
- ISA: `IsaHart`, `IsaMmu`, `IsaTranslate`, `IsaTraps`, `IsaInterrupts`, `IsaRiscv`.

`dafny verify dfyconfig.toml` checks the whole project, in about two minutes on four cores.

## Model

| member | source | states |
|---|---|---|
| Sha3Run.DoneShowsDigest | Project/sha3_real_wrapper.v:60-143 | in every run of inputs, when `done_o` is high the first message pushed since the last `init_i` is complete and `digest_o`, read byte by byte from the top, spells its SHA3-512 digest |
| Sha3Inputs.DigestOfInputs | Project/sha3_real_wrapper.v:60-143 | the same from the ports alone: in every run, `done_o` means that a last word has been accepted since the last init and `digest_o` is SHA3-512 of the bytes of `data_i` at the edges where `data_valid_i` met `input_ready_o`, four for a word and `data_byte_num_i` for the last one |
| Sha3Inputs.PushedIsSent | Project/sha3_real_wrapper.v:97-108 | in every run the entries pushed up to the first last one carry exactly those bits of the input ports |
| Sha3Inputs.FlagsFollowInputs | Project/sha3_real_wrapper.v:60-142 | in every run `busy_o` is high exactly when a word has been accepted since the last init or rise of `done_o`, `overflow_o` exactly when one was refused since, and `input_ready_o` exactly when no last word was accepted since and fewer than FIFO_DEPTH words wait |
| Sha3Inputs.DoneLasts | Project/sha3_real_wrapper.v:91-113 | in every reachable state `done_o` stays high over an edge exactly when there is no init, no start and no word offered |
| Sha3Theorems.OneMessagePerInit | Project/sha3_real_wrapper.v:60-143 | for every byte string fed as whole words and a last word of 0 to 3 bytes after an init, under any feeding pattern, `done_o` means `digest_o` is SHA3-512 of exactly those bytes |
| Sha3Feeding.EveryMessageIsDigested | Project/sha3_real_wrapper.v:60-143 | for every byte string, the empty one included, and every FIFO depth there is a run that pushes exactly its words and ends with `done_o` high and its SHA3-512 digest shown |
| Sha3Feeding.PushedAreNormal | Project/sha3_real_wrapper.v:98-100 | in every run a word stored that is not a last one carries byte count 0, so the entries that can be fed are all that ever occur |
| Sha3Feeding.ReadyReturns | Project/sha3_real_wrapper.v:60-131 | while a message is being fed, however full FIFO and padder are, `input_ready_o` is high again within 26 cycles without a push, nothing being lost meanwhile |
| Sha3Theorems.DigestCoversAllIff | Project/sha3_real_wrapper.v:60-143 | when `done_o` is high the digest is that of the first message since the last init, and that message is everything pushed if and only if no word was pushed after one marked last |
| Sha3Feeding.LaterWordsAreIgnored | Project/padder.v:42-87 | once a last word has reached the core, two runs that continue without init have the same core state, digest register included, at every cycle, whatever is pushed in either |
| Sha3Feeding.SecondMessageShowsFirst | Project/sha3_real_wrapper.v:91-142 | for any two byte strings there is a run without a second init that pushes both, ends with `done_o` high again, and shows the digest of the first |
| Sha3Theorems.BlocksAreThePaddedMessage | Project/padder.v:40-87 | in every run at most floor(n/72)+1 blocks of a message of n bytes are ever acknowledged; once the core is ready there are exactly that many, and joined they are the message, the suffix 01 and pad10*1 |
| Sha3Run.AcknowledgedWords | Project/padder.v:40-87 | in every reachable state the acknowledged blocks, joined, are the prefix of that many 18-word blocks of the padded message as far as fed, and the run invariant holds |
| Sha3Run.QueueRefined | Project/sha3_real_wrapper.v:63-142 | in every run the words pushed are the words handed to the core followed by the words waiting: the FIFO loses, repeats and reorders nothing |
| Sha3Run.RunInv | Project/sha3_real_wrapper.v:63-142 | every reachable state satisfies the invariant between FIFO, control registers and core: only the final entry may be marked last, WAIT implies an empty FIFO, and the core's buffer, lanes and flags are determined by what it was fed |
| Sha3Run.FrontStep | Project/sha3_real_wrapper.v:80-143 | every edge without init keeps the invariant of the idle / run / wait machine and its FIFO, whatever the core does within its own rules |
| Sha3Run.EngineStep | Project/sha3_real_wrapper.v:63-143 | every edge without init of wrapper and core together keeps the joint invariant for the entries popped and the blocks acknowledged up to then |
| Sha3Liveness.MessageFinishes | Project/sha3_real_wrapper.v:63-142 | once the last word has been pushed, `done_o` is high within 26 * FIFO_DEPTH + 524 cycles, for all inputs without init in between |
| Sha3Liveness.EngineProgress | Project/sha3_real_wrapper.v:63-142 | after the last push every edge before `done_o` strictly lowers the measure over FIFO entries, buffer slots and rounds left |
| Sha3Liveness.CoreProgress | Project/keccak.v:50-94 | every edge of the core that feeds a word, waits with a full buffer or pads strictly lowers the core's share of the measure, against 26 cycles set aside for each word fed |
| Sha3Liveness.MeasureBound | Project/sha3_real_wrapper.v:63-142 | in every reachable state the measure is at most 26 * FIFO_DEPTH + 523 |
| Sha3Core.CoreStep | Project/keccak.v:50-94 | every edge of padder and permutation together, overlapping or not, keeps the invariant that ties buffer, lanes, round count and completion flags to the words fed |
| Sha3Core.PadStep | Project/padder.v:40-87 | every edge of the padder keeps its buffer the window of the padded message due next: fed words, then zero words with the closing bit, nothing after the final block |
| Sha3Core.PermStep | Project/f_permutation.v:34-68 | every edge keeps the lanes equal to the sponge state of the blocks taken so far, advanced by the rounds counted: one absorption per `ack`, exactly 24 rounds with constants 0 to 23 in order, no acceptance in between |
| Sha3Core.ReadyShowsDigest | Project/keccak.v:48-88 | whenever `out_ready` is high, what was fed is a complete message and `out` spells its SHA3-512 digest |
| Sha3Message.PaddedWordsAreFips202 | Project/padder1.v:18-36 | for every complete feeding the words the padder has to emit spell the message bits, the suffix 01 and pad10*1 for the rate 576 |
| Sha3Absorb.AbsorbBlockAgrees | Project/f_permutation.v:34-68 | for every state string and block of 18 words, 24 rounds on the lanes after the lane-wise XOR equal one absorption step of the sponge on the string |
| Sha3Absorb.AbsorbedIsSponge | Project/f_permutation.v:34-68 | absorbing any number of 18-word blocks one after another is the sponge absorption of the bit string they spell |
| Sha3Absorb.DigestAgrees | Project/keccak.v:48-71 | byte j of `out`, counted from the top, is byte j of the state string, for all 64 bytes |
| KeccakCore.Keccak.Clock | Project/keccak.v:50-94 | one edge of the core's registers and both submodules is one step of the abstract core (queue of words, round count, flags) |
| KeccakCore.Keccak.OwnRegisters | Project/keccak.v:50-88 | the 23-bit shift register is one-hot exactly while the final block is in flight and raises `out_ready` when its last round is done |
| KeccakPadder.Padder.Clock | Project/padder.v:40-87 | the thermometer register `i` always equals the number of buffered words, and one edge is one step of the padder on a queue of words |
| KeccakPadder.Padder.Updates | Project/padder.v:40-43 | `update` is high exactly when the queue takes a word: not full, final block not handed over, and a word ready or the message closed |
| KeccakPadder.Padder.Incoming | Project/padder.v:71-87 | the word shifted in is the fed word, the fed word with suffix, or zeros, with the closing bit exactly in the last slot of a block |
| KeccakPadder.Padder.ShiftBuffer | Project/padder.v:45-57 | the shift into the 576-bit register appends one word to the queue, and an acknowledgement empties it |
| KeccakPermutation.Permutation.Clock | Project/f_permutation.v:34-68 | `calc` is 1 exactly when `i` is one-hot, `i` is 0 otherwise, and one edge is one step of a machine that counts rounds |
| KeccakPermutation.Permutation.RoundOut | Project/f_permutation.v:56-62 | the combinational path computes the FIPS 202 round with the constant of the round counted, on the state or on the state with the block added |
| KeccakPermutation.Permutation.Selected | Project/f_permutation.v:58-59 | the 24-bit index of the constant generator is one-hot at the round counted |
| KeccakPermutation.Permutation.Sequenced | Project/f_permutation.v:36-38 | the shifted register is one-hot at the next round count, or empty after the last round |
| KeccakConstants.RoundAgrees | Project/round.v:36-162 | for every state and round number below 24 the combinational round with the one-hot constant equals iota after chi, pi, rho and theta of FIPS 202 |
| KeccakConstants.ConstantAgrees | Project/rconst.v:22-32 | for every round and bit position the constant selected by the one-hot index is the constant of algorithm 6 of FIPS 202, section 3.2.5 |
| KeccakConstants.RegisterAtRound | Project/rconst.v:22-32 | the register of the LFSR of FIPS 202, section 3.2.5, after 7n steps is the tabulated value, for all 24 rounds |
| KeccakConstants.IotaAgrees | Project/round.v:131-151 | the step that wires only bits 0, 1, 3, 7, 15, 31 and 63 is iota |
| KeccakRound.ThetaAgrees | Project/round.v:47-64 | for every state the lane-level step is theta, bit by bit |
| KeccakRound.RhoAgrees | Project/round.v:66-91 | for every state the hard-coded rotations are rho with the offsets of FIPS 202, table 2 |
| KeccakRound.OffsetsFollowTheWalk | Project/round.v:66-91 | the offsets of table 2 are (t+1)(t+2)/2 along the walk of algorithm 2, for all 24 steps |
| KeccakRound.PiAgrees | Project/round.v:93-118 | for every state the hard-coded lane permutation is pi |
| KeccakRound.ChiAgrees | Project/round.v:120-129 | for every state the lane-level step is chi, bit by bit |
| Ring.Push | Project/sha3_real_wrapper.v:97-105 | writing the slot after the last entry of a ring appends to the queue it holds, for every depth, read pointer and count |
| Ring.Pop | Project/sha3_real_wrapper.v:117-121 | advancing the read pointer drops the head of the queue, and the slot read is that head |
| Sha3Wrapper.Wrapper.Clock | Project/sha3_real_wrapper.v:60-144 | one edge of wrapper and core registers is one step of the abstract engine; pointers and count agree modulo the depth before and after |
| Sha3Wrapper.Wrapper.ClockFront | Project/sha3_real_wrapper.v:80-144 | the always block, with its overriding assignments, is one step of the queue and the idle / run / wait machine |
| Sha3Wrapper.Wrapper.ClockCore | Project/sha3_real_wrapper.v:63-76 | the core is fed the head of the queue exactly when a word is popped |
| Sha3Wrapper.Wrapper.InputReady | Project/sha3_real_wrapper.v:60 | `input_ready_o` says that the queue has room, no last word has been seen and the engine is not waiting |
| AesMachines.DecryptionRestoresBlock | Project/AESDecrypt.v:19-42 | for all round keys, blocks and enable and reset patterns of both runs, a finished decryption of a finished encryption holds the block loaded into the encrypter, whose own result is the FIPS 197 cipher |
| AesCipher.InvCipherUndoesCipher | Project/AESDecrypt.v:19-42 | for every list of two or more round keys the inverse cipher of the cipher of any block is that block |
| AesCipher.DecryptingUndoesEncrypting | Project/AESDecrypt.v:19-42 | each kind of decryption round undoes the matching encryption round, up to row shift and byte substitution |
| AesCipher.RoundUndone | Project/aes256_round_enc.v:11-30 | for every state and key an inverse round brings a round's output back to its input, up to row shift and byte substitution |
| AesSequencer.CascadesMeet | Project/AESDecrypt.v:27-42 | after n inverse rounds the decrypter holds the intermediate form of what the encrypter held that many rounds before its end, for every n |
| AesSequencer.CascadeUndone | Project/AESDecrypt.v:19-42 | when each step is undone up to the intermediate form, the cascade with the keys reversed brings the block back |
| AesSequencer.RunFollowsCascade | Project/AESEncrypt.v:31-38 | in every run from an idle counter the register holds the data loaded at the first enabled edge since reset, taken through as many steps as there were enabled edges, and then keeps the result |
| AesMachines.EncryptWires | Project/AESEncrypt.v:17-27 | the multiplexed wires compute the first, middle or last cipher step as the round counter asks |
| AesMachines.DecryptWires | Project/AESDecrypt.v:18-32 | the multiplexed wires compute the first, middle or last inverse step as the round counter asks |
| AesMachines.AesEncrypt.Clock | Project/AESEncrypt.v:31-38 | one edge or reset of the encrypter is one step of the sequencer over the cipher steps and the round keys in order |
| AesMachines.AesDecrypt.Clock | Project/AESDecrypt.v:35-42 | one edge or reset of the decrypter is one step of the sequencer over the inverse steps and the round keys from last to first |
| AesField.Mul2 | Project/InvMixColumns.v:6-15 | the loop multiplies by x as many times as asked |
| AesField.XtimeBranches | Project/MixColumns.v:6-11 | the branch on the top bit is multiplication by x in the field |
| AesRound.InvMultiply | Project/InvMixColumns.v:17-43 | the four multipliers built from the loop multiply by 0e, 0b, 0d and 09 in GF(2^8) |
| AesRound.MixColumnIsFips197 | Project/MixColumns.v:13-28 | for every column the four assignments are the product with 03 x^3 + 01 x^2 + 01 x + 02 of FIPS 197, section 5.1.3 |
| AesRound.InvMixColumnIsFips197 | Project/InvMixColumns.v:45-60 | for every column the four assignments are the product with 0b x^3 + 0d x^2 + 09 x + 0e of FIPS 197, section 5.3.3 |
| AesRound.MixColumnInverse | Project/InvMixColumns.v:45-60 | the inverse mixer undoes the mixer on every column |
| AesRound.MixColumnsInverse | Project/InvMixColumns.v:45-60 | the inverse mixer undoes the mixer on every state |
| AesRound.ShiftRowsIsFips197 | Project/ShiftRows.v:27-49 | for every byte position row r moves left by r columns, and back in the inverse |
| AesRound.MixColumnsIsFips197 | Project/MixColumns.v:13-28 | byte (r, c) of the mixed state is 02 times byte (r, c), plus 03 times (r+1, c), plus (r+2, c) and (r+3, c), rows modulo 4, in GF(2^8), and the inverse likewise with 0e, 0b, 0d and 09 |
| AesRound.SubBytesIsFips197 | Project/SubBytes.v:5-31 | every byte of the state goes through the table at its own place, and through the inverse table in the inverse |
| AesRound.AddRoundKeyIsFips197 | Project/AddRoundKey.v:5 | byte (r, c) of the sum is the exclusive or of bytes (r, c) of state and key |
| AesRound.ShiftRowsInverse | Project/InvShiftRow.v:27-49 | the inverse row shift undoes the row shift on every state |
| AesRound.SubBytesInverse | Project/InvSubBytes.v:5-10 | the inverse substitution undoes the substitution on every state |
| AesRound.AddRoundKeyTwice | Project/AddRoundKey.v:5 | adding a round key twice changes nothing |
| AesTables.TablesInverse | Project/InvSubTable.v:5-262 | the inverse table undoes the table on all 256 bytes |
| AesTables.SubTableIsFips197 | Project/SubTable.v:5-263 | every table entry is the affine transform of the multiplicative inverse of its index (of 0 for 0), as in FIPS 197, section 5.1.1 |
| AesKeySchedule.KeyExpansionIsFips197 | Project/KeyExpansion.v:67-88 | for every key of 4, 6 or 8 words the group-at-a-time expansion with its cut last group gives all 4(Nr+1) words of the recurrence |
| AesKeySchedule.ExpandedKeyBytes | Project/KeyExpansion.v:9-88 | for every key, byte j of every word i of the expansion is byte j of word i - Nk plus: the table entry of byte j + 1 modulo 4 of word i - 1, and x^(i/Nk - 1) for j = 0, when Nk divides i; the table entry of byte j when Nk = 8 and i is 4 modulo 8; byte j of word i - 1 otherwise (FIPS 197, section 5.2) |
| AesKeySchedule.RoundKeysAreSchedule | Project/aes256_pipeline_top.v:49-63 | a list of round keys is the one cut out of the expansion if and only if it has Nr + 1 keys and byte (r, c) of key n is byte r of word 4n + c of the schedule |
| AesKeySchedule.GroupsFollowSchedule | Project/KeyExpansion.v:75-81 | word j of group g is word g * Nk + j of the recurrence, for every group that the four-bit round count can number |
| AesKeySchedule.NextWord | Project/KeyExpansion.v:9-64 | each word of a group follows from the group before and the words before it as the recurrence asks, including the extra substitution for Nk = 8 |
| AesKeySchedule.RoundConstantIsPower | Project/KeyExpansion.v:31-46 | the round constants that the four-bit round count can select are the powers of x |
| AesPipeline.InStage | Project/aes256_pipeline_top.v:99-272 | in every run, whatever else is in flight, what was offered at an edge is in stage i after i more edges, taken through i rounds with the keys then in place, and its valid bit with it |
| AesPipeline.InLastStage | Project/aes256_pipeline_top.v:183-275 | one edge per stage after it was offered, a block is on the output as its cipher, and a bubble as a bubble |
| AesPipeline.EmittedAreEnciphered | Project/aes256_pipeline_top.v:99-275 | over every run the valid outputs are the ciphers of the blocks taken in, in order, none lost or repeated, under any bubble pattern |
| AesPipeline.KeysKept | Project/aes256_pipeline_top.v:26-31 | the key register is the same before every edge of a stretch with neither reset nor key load |
| AesStream.PipelineTop.Clock | Project/aes256_pipeline_top.v:26-275 | one edge of the stage, valid and key registers is one step of the abstract pipeline over the cipher steps, the key register taking the round keys of the key loaded |
| AesStream.PipelineIsAes256 | Project/aes256_pipeline_top.v:26-275 | in every run, with a 256-bit key loaded at an earlier edge, a block taken by the pipeline is on the output 15 edges later as its FIPS 197 AES-256 cipher under the round keys that are the schedule of that key, byte for byte |
| AesStream.PipelineRefinesEncrypter | Project/aes256_pipeline_top.v:26-275 | that output is also the state of the iterative encrypter after 15 or more enabled edges on the same block and the round keys that are the schedule of the loaded key |
| AesPipeline.KeysLoaded | Project/aes256_pipeline_top.v:26-31 | after a key load the key register holds the keys loaded until the next load or reset |
| AesStream.CtrStream.Clock | Project/aes256_ctr_stream.v:44-221 | one edge of counter, pipeline and delay registers is one step of the abstract stream |
| AesStream.CtrStream.ShiftPayload | Project/aes256_ctr_stream.v:122-221 | the three delay pipes move together, one place per edge |
| AesStream.CtrStream.Outputs | Project/aes256_ctr_stream.v:223-227 | the outputs are those of the abstract stream: delayed payload masked with the keystream, last and keep beside it |
| AesStream.CtrStreamIsAes256 | Project/aes256_ctr_stream.v:44-227 | in every run, with a 256-bit key loaded at an earlier edge and a counter loaded by then, the k-th block accepted since the counter load leaves exactly 15 cycles later, each byte XORed with the same byte of AES256(key, ctr_init + k mod 2^128) under the schedule of that key, with its own last and keep; a bubble leaves as a bubble |
| AesStream.CtrStreamRoundTrip | Project/aes256_ctr_stream.v:44-227 | outputs of one session fed into another with the same key and first counter, under any other bubble pattern, come out as the inputs of the first, with their last and keep |
| AesCtr.CounterCounts | Project/aes256_ctr_stream.v:44-58 | in every run the counter register is the value last loaded plus the number of blocks accepted since, modulo 2^128 |
| AesCtr.CounterSince | Project/aes256_ctr_stream.v:42-58 | the counter block used by a block is the value last loaded plus the number of blocks accepted since, modulo 2^128, the load and the block sharing an edge included |
| AesCtr.PayloadDelayed | Project/aes256_ctr_stream.v:122-221 | in every run without reset a payload is in place i of the delay pipes i edges after it entered |
| AesCtrSession.OutIsCtrText | Project/aes256_ctr_stream.v:44-227 | the payloads that leave a session are those that entered, in order, masked with the counters first, first + 1, ... modulo 2^128, as in section 6.5 of NIST SP 800-38A |
| AesCtrSession.CtrTextTwice | Project/aes256_ctr_stream.v:225 | counter mode applied twice with the same key and first counter is the identity |
| AesCtrSession.SecondPassRestores | Project/aes256_ctr_stream.v:44-227 | for any cipher and any mask that undoes itself, a second session restores what entered the first |
| AesCounterBlock.CounterBlockValue | Project/aes256_ctr_stream.v:39-44 | the sixteen bytes of a counter block, most significant first, stand for the counter |
| AesCounterBlock.CountersDistinct | Project/aes256_ctr_stream.v:39-44 | no two counters below 2^128 have the same block |
| TcmFifo.Fifo.Clock | top_tcm_wrapper/tcm_mem_pmem.v:402-428 | one edge on memory, pointers and count is one step of a bounded queue: a push needs room and a pop an entry, both judged before the edge |
| TcmFifo.Fifo.DataOut | top_tcm_wrapper/tcm_mem_pmem.v:438 | the output shows the head of the queue when there is one |
| TcmFifo.QueueConserves | top_tcm_wrapper/dport_axi.v:296-332 | every step keeps "pushed = popped followed by queued", for accepted pushes and pops |
| TcmBridgeTheorems.BridgeDelivers | top_tcm_wrapper/tcm_mem_pmem.v:151-352 | over every run with held VALIDs and arbitrary strobes, the reads accepted call for exactly the beats seen on R followed by those due (len + 1 each, own ID, last only on the final one), and the writes for exactly the responses seen on B followed by those due, a write being without response if and only if its only beat was taken with the address and had no strobe |
| TcmBridgeTheorems.AccessesInOrder | top_tcm_wrapper/tcm_mem_pmem.v:151-352 | over every such run the RAM accesses are the beats of the accepted bursts in order, the k-th beat of a burst being at its address plus 4k modulo 2^32, answers go to the accesses in order, each with the word the RAM gave for it, and the reads among them are what R carries |
| TcmBridgeRun.BeatsUnfold | top_tcm_wrapper/tcm_mem_pmem.v:163-182 | the beat at once and the rest of the burst that the registers go on with (address advanced by four in 32 bits, length less one) are the beats at addr + 4k modulo 2^32 |
| TcmBridgeTheorems.ResponseHeld | top_tcm_wrapper/tcm_mem_pmem.v:341-352 | a response offered and not taken is offered unchanged at the next edge |
| TcmStrobes.AnsweredIffStrobed | top_tcm_wrapper/tcm_mem_pmem.v:151-352 | in every run in which no beat is taken ahead of its address, with arbitrary strobes: when all beats of the last accepted write are taken, its response is given or waiting if and only if every beat has a strobe, but for a first beat taken with the address that is not the only one; otherwise it is lost or the bridge keeps waiting |
| TcmStrobes.WaitingTakesAnyBeat | top_tcm_wrapper/tcm_mem_pmem.v:313-326 | while the bridge waits for write beats it takes no command, and takes the next beat offered, whosever it is, at its own address |
| TcmStall.IdleMemoryStalls | top_tcm_wrapper/tcm_mem.v:220-258 | from every idle state of the whole memory a write offered without strobes is never taken, nor a read beside it that has lower priority, for as long as nothing else is offered |
| TcmStall.LostBehindRead | top_tcm_wrapper/tcm_mem.v:220-259 | from reset, for any memory contents, a single-beat write without strobes offered directly behind a read is accepted with no response given or due for it |
| TcmProgress.BurstsFinish | top_tcm_wrapper/tcm_mem.v:117-259 | from every reachable state, after 1814 cycles in which the master takes responses, has its write beats ready and offers no command, all beats of all accepted reads and all responses of all accepted writes have been delivered, whatever the CPU does |
| TcmProgress.BurstsShutOutCpu | top_tcm_wrapper/tcm_mem.v:220-227 | the CPU is taken in exactly the cycles in which it asks and the bridge did not ask for the RAM in the cycle before |
| TcmProgress.CommandTakenWithinTwo | top_tcm_wrapper/tcm_mem_pmem.v:309-339 | a read or a strobed write offered between bursts, what was held over still being offered, with room for its tag is taken in the same cycle when the RAM is the bridge's, and in the next when it is the CPU's |
| TcmProgress.RoundRobin | top_tcm_wrapper/tcm_mem_pmem.v:309-318 | with a read and a write offered between bursts, neither held over and the RAM the bridge's, exactly the one the priority register names is taken, and the register turns over |
| TcmBridgeRun.InvStep | top_tcm_wrapper/tcm_mem_pmem.v:151-352 | every edge with well-behaved peers keeps the conservation of bursts, beats, tags and words |
| TcmBridgeRun.Exclusive | top_tcm_wrapper/tcm_mem_pmem.v:313-318 | in every reachable state reads and writes are never active in the same cycle |
| TcmBridgeRun.BeatsConserved | top_tcm_wrapper/tcm_mem_pmem.v:163-216 | the beats due before an edge and those of the burst accepted at it are the access performed followed by the beats due after it |
| TcmBridgeRun.WriteBeatPerformed | top_tcm_wrapper/tcm_mem_pmem.v:320-336 | in every reachable state a write is performed exactly when a beat with strobes is taken, with its own data and strobes |
| TcmBridgeRun.ResponsesFit | top_tcm_wrapper/tcm_mem_pmem.v:291-307 | the request FIFO holds as many entries as the response FIFO and the RAM together, so the response FIFO, whose accept output is unused, never overflows |
| TcmBridge.PmemBridge.Clock | top_tcm_wrapper/tcm_mem_pmem.v:151-352 | one edge of the request registers and both FIFOs is one step of the abstract bridge |
| TcmBridge.PmemBridge.Answer | top_tcm_wrapper/tcm_mem_pmem.v:341-352 | an entry is popped exactly when its response is taken or it is a write beat inside a burst |
| TcmRam.Ram.Clock | top_tcm_wrapper/tcm_mem_ram.v:78-105 | both ports read the contents before the edge, and each of the four byte lanes of the row addressed by port 1 takes that lane of its data if its own strobe is set; nothing else changes |
| TcmMemRun.ReplayedByte | top_tcm_wrapper/tcm_mem_ram.v:95-102 | for every list of operations, byte lane b of row r afterwards is lane b of the data of the last operation on r whose strobe b is set, or the initial byte if there is none |
| TcmMemRun.BytesInRun | top_tcm_wrapper/tcm_mem.v:168-259 | over every run of CPU and AXI requests, each byte of the RAM is that of the last operation accepted that strobed it |
| TcmMemRun.AcceptedAsAsked | top_tcm_wrapper/tcm_mem.v:166-193 | an operation accepted on port 1 has the data and strobes of the CPU or the bridge, whichever is served, and the row of four bytes that holds its address modulo 64 KB |
| TcmMemRun.AtomicRun | top_tcm_wrapper/tcm_mem.v:168-259 | over every run of CPU and AXI requests the RAM equals the replay, one at a time and in cycle order, of the operations accepted on port 1 |
| TcmMemRun.OneUser | top_tcm_wrapper/tcm_mem.v:220-259 | at most one of CPU and AXI is served on port 1 in a cycle |
| TcmMemRun.RamStep | top_tcm_wrapper/tcm_mem.v:168-193 | what reaches the RAM in a cycle is the operation accepted or changes nothing, and its read register takes the accepted row |
| TcmMemRun.CpuServedAtomically | top_tcm_wrapper/tcm_mem.v:229-257 | over every run the CPU is acknowledged one cycle after each accepted request and never otherwise, with its tag and the word the accepted operations before it left |
| TcmMemRun.BridgeServedAtomically | top_tcm_wrapper/tcm_mem.v:243-259 | over every run the bridge is acknowledged one cycle after each accepted access and never otherwise, with the word the accepted operations before it left |
| TcmMemRun.FetchServedAtomically | top_tcm_wrapper/tcm_mem.v:200-210 | over every run a fetch is valid one cycle after it was asked, with the word the accepted operations before it left |
| TcmMem.Tcm.Clock | top_tcm_wrapper/tcm_mem.v:105-259 | one edge of RAM, bridge and control registers is one step of the abstract memory |
| TcmMem.Tcm.Wires | top_tcm_wrapper/tcm_mem.v:108-170 | the bridge sees the complement of the CPU's accept, and port 1 is given the abstract operation |
| TcmAxiRun.AxiAnswersAreAtomic | top_tcm_wrapper/tcm_mem.v:117-259 | over every run of the whole memory with a well-behaved AXI master and any CPU: the bus operations are on rows (addr + 4k) mod 65536 / 4 for the k-th beats of the accepted bursts in order, the k-th answer carries the word the operations before the k-th of them left in its row, and the writes among them write the data and strobes of the strobed beats taken, in order |
| DportAxiRun.PortDelivers | top_tcm_wrapper/dport_axi.v:117-247 | over every run in which the slave answers only outstanding transactions: requests leave in order, each read makes one AR and each write one AW and one W handshake with its own address, data and strobes, acknowledgements take the tags in order, and the tag FIFO holds one entry per request queued or outstanding |
| DportAxiRun.PortInvStep | top_tcm_wrapper/dport_axi.v:117-247 | every edge keeps that bookkeeping, in whatever order AWREADY and WREADY come |
| DportAxiRun.OneOutstanding | top_tcm_wrapper/dport_axi.v:238-247 | the transactions completed and not yet acknowledged number `request_pending_q` |
| DportAxiRun.ChannelsHeld | top_tcm_wrapper/dport_axi.v:186-236 | once VALID is up on AR, AW or W it stays up with the same payload until READY |
| DportAxiRun.AcceptedBelowTwo | top_tcm_wrapper/dport_axi.v:117-176 | in every reachable state a request is accepted exactly while fewer than two are unanswered |
| DportAxiRun.RequestsFinish | top_tcm_wrapper/dport_axi.v:117-247 | after every run, four cycles of a slave that is ready and answers, with nothing more asked, issue and acknowledge every request taken |
| DportAxi.AxiPort.Clock | top_tcm_wrapper/dport_axi.v:117-247 | one edge of both FIFOs and the three flags is one step of the abstract port |
| DportAxi.AxiPort.Channels | top_tcm_wrapper/dport_axi.v:181-236 | the channel and completion wires are those of the abstract port's head request |
| DportAxi.AxiPort.ClockQueues | top_tcm_wrapper/dport_axi.v:117-176 | a request enters both FIFOs or neither |
| DportMuxRun.SystemInvStep | top_tcm_wrapper/dport_mux.v:113-170 | every edge keeps all outstanding requests with the target in `tcm_access_q` and the count equal to their number |
| CpuPortRun.CpuLoadsAreAtomic | top_tcm_wrapper/dport_mux.v:113-170 | over every run of multiplexer, memory and AXI port, with any AXI master on the memory, the CPU's answers are those of its requests in order; one from the memory carries its tag and the word that the operations accepted before it left, and `pending_q` is taken minus acknowledged, never more than two |
| CpuPortRun.CpuOpAsAsked | top_tcm_wrapper/dport_mux.v:113-143 | in every reachable state the CPU's operation on the memory is its request for an address below 0x10000, when taken: row addr / 4, its data and its strobes; otherwise the memory is at most used by the bus |
| DportMuxRun.CpuAnsweredInOrder | top_tcm_wrapper/dport_mux.v:113-170 | over every run of multiplexer and AXI port, for any pattern of the memory's accept, the CPU's answers are those of its requests in order, each with its tag and from its own target, and `pending_q` is taken minus acknowledged, never more than two |
| DportMuxRun.OneTargetAsked | top_tcm_wrapper/dport_mux.v:113-137 | in every reachable state a request reaches only the target of its address, and only while the other target has nothing outstanding |
| DportMuxRun.RequestTakenIff | top_tcm_wrapper/dport_mux.v:113-170 | in every reachable state of an answerable run a request below 0x10000 is taken exactly when the memory accepts it and nothing is outstanding on the bus, any other exactly when fewer than two are outstanding there and the memory owes no answer |
| DportMuxRun.RequestReachesTarget | top_tcm_wrapper/dport_mux.v:119-137 | a request taken reaches the memory, for an address below 0x10000, or the bus, for any other, with its commands, address, data and tag unchanged, and the other target is asked nothing |
| DportMuxRun.AckAnswersSomething | top_tcm_wrapper/dport_mux.v:139-143 | the CPU is acknowledged only for an outstanding request, the oldest one |
| DportMuxRun.CountRightIffAnswerable | top_tcm_wrapper/dport_mux.v:145-162 | when a request is taken the count stays right if and only if its target answers it: an address in the memory, a read or a write |
| DportMuxRun.MemoryReturnsModulo32 | top_tcm_wrapper/dport_mux.v:145-170 | over every run from reset, after flushes, invalidates or write-backs to external addresses, a request that the memory would accept is taken if and only if the number of those lost requests plus the requests outstanding is a multiple of 32 |
| DportMuxRun.FlushesLockAndUnlock | top_tcm_wrapper/dport_mux.v:145-170 | after n external flushes from reset, n up to 32, a load from the memory is taken exactly for n = 0 and n = 32 |
| DportMux.DataMux.Clock | top_tcm_wrapper/dport_mux.v:145-170 | the five-bit counter always equals, modulo 32, the requests taken minus the answers given since reset, in every run of inputs |
| DportMuxRun.MemoryKeepsItsSide | top_tcm_wrapper/tcm_mem.v:229-253 | the acknowledgement registers of the composed system step as those of the memory given the routed request |
| IsaTranslate.BareModeFaultsUsers | isa_sim/riscv.cpp:378-382 | in bare mode the address passes unchanged if and only if the access is not a user's; a user access page-faults |
| IsaTranslate.TranslationIsSv32 | isa_sim/riscv.cpp:364-586 | for all tables within 32-bit addresses without pointers at the second level, all addresses, privileges and access kinds, the walk ends, and translation is that of section 4.3.2 of the RISC-V privileged specification v1.11 (with the simulation ending on a missing page and on a supervisor access to a user page) if and only if the walk does not end at a misaligned superpage that is present and not refused; such a page is used with the page numbers merged |
| IsaTranslate.AccessGrantedIff | isa_sim/riscv.cpp:478-586 | for every walk that ends at a leaf whose page exists, the access is granted if and only if the entry's own bit for it is set (0x2 to load, 0x4 to store, 0x8 to fetch), a writable page is readable, a user access finds 0x10 set, and a supervisor access finds 0x10 clear or is a load or store with SUM |
| IsaTranslate.CheckAgrees | isa_sim/riscv.cpp:478-507 | for all flag bits of an entry the simulator's tests deny the reserved ones, end the simulation on a supervisor access to a user page, and otherwise grant exactly what the specification permits |
| IsaTranslate.Resolve | isa_sim/riscv.cpp:465-586 | the privilege test, the walk, the checks and the address computation give the abstract outcome |
| IsaMmu.MmuWalk | isa_sim/riscv.cpp:364-461 | the loop over the levels, updating base and entry, returns the entry of the two-level walk, whenever the second level ends it |
| IsaHart.TrapLevel | isa_sim/riscv.cpp:821-861 | a trap never lowers the privilege level and goes to the supervisor exactly when delegated |
| IsaHart.DelegatedTrap | isa_sim/riscv.cpp:806-846 | from user or supervisor level, a cause whose bit is set in mideleg (interrupts) or medeleg (exceptions) goes to the supervisor: sepc, scause, stval, SPIE and SPP record it, SIE is cleared, execution is at sevec and nothing of the machine's changes |
| IsaHart.MachineTrap | isa_sim/riscv.cpp:847-869 | every other trap goes to machine level: mepc, mcause, MPIE and MPP record it, MIE is cleared, execution is at mevec and nothing of the supervisor's changes |
| IsaHart.ListedBits | isa_sim/riscv.cpp:810-820 | the delegation bit of a cause is the bit of its number, for each cause by its mask |
| IsaHart.SupervisorHandlerReturns | isa_sim/riscv.cpp:803-870 | after a delegated trap, any number of machine-level traps inside the handler, each with a handler that may write anything but the supervisor's registers and what its own MRET uses, leave cause, address and return address intact, and the closing SRET restores privilege, SIE and pc |
| IsaHart.MachinePairRestores | isa_sim/riscv.cpp:803-870 | a machine-level trap, such a handler and its MRET restore privilege, MIE and pc and change nothing of the supervisor's |
| IsaHart.HandlersNest | isa_sim/riscv.cpp:803-870 | a machine-level handler trapped in turn is again such a handler once it puts back mepc, MPIE and MPP, so handlers nest to any depth |
| IsaTraps.SupervisorTrapStatus | isa_sim/riscv.cpp:824-833 | the bit operations save and clear SIE and record SPP, every other bit unchanged |
| IsaTraps.MachineTrapStatus | isa_sim/riscv.cpp:849-858 | the bit operations save and clear MIE and record MPP, every other bit unchanged |
| IsaTraps.MretStatus | isa_sim/riscv.cpp:1408-1418 | the bit operations restore MIE, set MPIE and clear MPP, every other bit unchanged |
| IsaTraps.SretStatus | isa_sim/riscv.cpp:1434-1443 | the bit operations restore SIE, set SPIE and clear SPP, every other bit unchanged |
| IsaTraps.ViewBits | isa_sim/riscv_isa.h:456-471 | the six fields of the status word are the bits 0x2, 0x8, 0x20, 0x80, 0x100 and 0x1800, and the rest is every other bit |
| IsaRiscv.Riscv.Exception | isa_sim/riscv.cpp:803-870 | the method takes the trap of the abstract hart, on the registers and the status word |
| IsaRiscv.Riscv.Mret | isa_sim/riscv.cpp:1401-1426 | from machine level the branch is the return of the abstract hart; from any other level the assertion ends the simulation |
| IsaRiscv.Riscv.Sret | isa_sim/riscv.cpp:1427-1451 | from supervisor level the branch is the return of the abstract hart; from any other level the assertion ends the simulation |
| IsaRiscv.Riscv.Retire | isa_sim/riscv.cpp:1519-1554 | an instruction ends with the trap for the interrupt selected, or at the next instruction when there is none |
| IsaRiscv.Riscv.MmuITranslate | isa_sim/riscv.cpp:465-524 | a fetch translation returns the address, changing nothing, takes the page-fault trap with cause 12, the fetched address as pc and bad address, or ends the simulation; with well-formed tables which of these, and the address, is as Sv32 asks |
| IsaRiscv.Riscv.MmuDTranslate | isa_sim/riscv.cpp:528-586 | the same for loads and stores, with cause 13 or 15 and the pc of the instruction |
| IsaInterrupts.Select | isa_sim/riscv.cpp:1535-1545 | the loop finds the lowest-numbered interrupt whose bit is set, or none |
| IsaInterrupts.SelectedFirst | isa_sim/riscv.cpp:1519-1547 | the interrupt selected is pending and enabled at the level that handles it (always enabled below that level, by SIE or MIE at it, never above), no lower-numbered one of its level is, and it is the machine's whenever one of the machine's is |
| IsaInterrupts.NoneTakeable | isa_sim/riscv.cpp:1519-1547 | with only architected interrupts pending, none is selected only when none is pending and enabled in that sense |
| IsaInterrupts.MachineSelected | isa_sim/riscv.cpp:1523-1545 | a machine-level interrupt selected is pending, not delegated and enabled |
| IsaInterrupts.MachineSelectsFirst | isa_sim/riscv.cpp:1523-1545 | whenever one is pending, not delegated and enabled, one with no higher number is selected |
| IsaInterrupts.SupervisorSelected | isa_sim/riscv.cpp:1524-1545 | a supervisor-level interrupt selected is pending, delegated and enabled |
| IsaInterrupts.SupervisorSelectsFirst | isa_sim/riscv.cpp:1524-1545 | whenever one is pending, delegated and enabled, one with no higher number is selected |
| IsaInterrupts.UnselectedIsZero | isa_sim/riscv.cpp:1525-1547 | with only architected interrupts pending, none is selected only when there is none to take |

## Left out

SHA3:

- The three parallel FIFO memories of the wrapper are one memory of entries.
- Register widths of pointers and counts: the FIFO depth is any positive number, and the wrap-around
  is the one written in the code.

AES:

- The registers `rk0` to `rk14`, `stage0_reg` to `stage14_reg` and the delay pipes are lists
  indexed by stage; `ctr_dbg`, `keystream_dbg` and the constant `ready_in` are not modelled.
- The 128-bit counter is a number below 2^128; `AesCounterBlock` ties it to the block it stands for.
- The substitution tables are decisions on the bits of the index rather than a case statement.
- AesMachines.AesEncrypt.Clock: round counts up to 61 fit the six-bit counter; larger ones, which no
  instance uses, would wrap. The same holds for the decrypter.
- AesMachines.DecryptionRestoresBlock: the other direction, encrypting a decryption, is not stated,
  because the design does not rely on it.

TCM:

- FIXED and WRAP bursts, which are compiled in only on request: every burst increments, and the
  burst type is not kept.
- `ram_len_o`, the error outputs (constant zero) and `mem_cacheable` signals.
- `mem_data_rd_o` and `mem_error_o` of the AXI port, which pass through from the bus in the cycle of the answer.
- TCM_MEM_BASE is the default, 0.
- DportMuxRun.CpuAnsweredInOrder: leaves the data word out; `CpuPortRun.CpuLoadsAreAtomic` has it.
- CpuPortRun.CpuLoadsAreAtomic: when a request is taken is not promised, because unbroken bursts keep the CPU
  out (`TcmProgress.BurstsShutOutCpu`) and an external slave may never answer.
- TcmStrobes.AnsweredIffStrobed: a run ends to be covered when a beat of a later burst is taken for one that
  waits; what that does is said by `TcmStrobes.WaitingTakesAnyBeat` for one edge only.
- TcmProgress.RoundRobin: states one cycle with neither command held over; when one is held over it goes first.

ISA simulator:

- IsaTranslate.TranslationIsSv32: accessed and dirty bits, MXR and MPRV are ignored, as in the code,
  and a page table entry outside memory faults, where the specification leaves the kind of fault open;
  tables beyond 32-bit addresses, which the code reads at a truncated address, are outside the statement.
- Cause registers hold the interrupt flag and the code as a pair; there is no `mtval` in the simulator.
- Interrupts are taken lowest number first, as in the code; the specification takes external
  interrupts first.
- IsaHart.SupervisorHandlerReturns: the supervisor's own instructions move the program counter and write the
  status bits outside the six fields; a handler that writes its own trap registers, as a context
  switch does on purpose, is outside the statement.
- Instruction bodies, loads and stores, CSR accesses, the disassembler, the ELF loader, the console and
  the simulation control registers: outside the privileged part, or input and output.

Not modelled at all:

- `core/riscv` and `top_cache_axi`: the RISC-V pipeline, its MMU and the caches; the TCM system is modelled up to
  the ports they use.
- `cpu_axi_sha`, `sha3_512`, `aes256/rtl`, `top_tcm_axi`, `Project/riscv-master`: earlier versions or copies of what
  is modelled.
- `Project/axi_d_simple_decoder.v`, `Project/soc_top.v`: wiring around blocks whose source is not in the repository.
- `Project/axi_sha3_regs.v`, `Project/axi_simple_rom.v`: the register map over the engine and a
  burst ROM; the engine is modelled at its own ports.
- `Project/AES.v` and the display modules, `make_secure.py` and the key files, `pico_axi/picorv32.v`, SystemC and
  Verilator code.
