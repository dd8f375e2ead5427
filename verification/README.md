# MBPlib in Dafny

A model of the core of MBPlib, a branch-prediction simulation library:
the saturating counters and bit-twiddling helpers that predictors are
built from, the `Branch` value and the SBBT trace format (writer and
reader), the `Predictor` interface and the example predictors that
implement it (bimodal and N-modal, gshare, two-level, the tournaments,
2bc-gskew, the hashed perceptron, TAGE and BATAGE), and the simulation
driver that runs a predictor over a trace and counts mispredictions.

Everything is pure functions over immutable datatypes, except the reader
and writer buffer loops and the simulation loop, which are methods with
loop invariants. Machine words are modelled either as `bv64`/`bv32`
(the SBBT codec, `Branch`) or, where the proofs need to reason about
individual bit positions, as 64-element `seq<bool>` with bit 0 first
(module `Bits`). Fixed-width integer arithmetic (32-bit wrap-around,
signed ranges, 64-bit instruction counters) is written out explicitly.

Module layout, one file each:

- `Bits`, `Arithmetic`, `SaturatedReg`, `Indexing`, `FoldWindow`,
  `BimodalTable`, `Histories`: the utilities.
- `Branches`, `SbbtWriter`, `SbbtReader`, `Results`: the trace format.
- `Predictors`: the `Predictor` interface, as a record of three
  functions over a state type.
- `CounterTables`, `GlobalHistory`, `TaggedHashes`, and `Bimodal`,
  `Gshare`, `TwoLevel`, `Tournament`, `TwoBcGskew`, `HashedPerceptron`,
  `Tage`, `Batage`: the predictors.
- `Simulator`: the simulation driver.

Predictors whose `predict` caches hashes for `train` (2bc-gskew, the
hashed perceptron, TAGE, BATAGE) keep the cache in their state. A
`Coherent` predicate says the cache is either marked unusable or holds
what a fresh computation would give. `predict` and `track` preserve it, and
on a coherent state `predict` returns the fresh prediction. `train` does
not preserve it: it changes the tables but keeps the cached entries, which
stay stale until the next `track` marks them unusable. So in the
simulator's order (predict, train, track) every `predict` sees a coherent
state; `SimulationCoherent` proves this for each of these predictors over
the simulator's own loop. The
global histories of TAGE, BATAGE and the perceptron are related to the
full sequence of tracked outcomes: the ring buffer holds its newest bits,
and each incremental fold equals a from-scratch fold of its window.

BATAGE's random number engine is a parameter `draws: nat -> nat`, where
`draws(n)` is the value the n-th draw yields before it is reduced to the
requested range. The state counts how many draws have been made.

## Model

| member | source | states |
|---|---|---|
| Arithmetic.U32Sadd | include/mbp/utils/arithmetic.hpp:11-13 | the result never exceeds 2^width - 1, and without 32-bit overflow it is the smaller of the sum and that cap |
| Arithmetic.U32Ssub | include/mbp/utils/arithmetic.hpp:15-17 | the result never wraps: it is reg - val when val <= reg and 0 otherwise |
| Arithmetic.U32Supd | include/mbp/utils/arithmetic.hpp:19-21 | the result stays within the register's range or the cap |
| Arithmetic.U32SupdStep | include/mbp/utils/arithmetic.hpp:19-21 | on a width-bit register, one step up capped at 2^width - 1 when dir, else one step down floored at 0 |
| Arithmetic.I32Sadd | include/mbp/utils/arithmetic.hpp:23-26 | the exact sum when it is at most 2^(width-1) - 1, and that cap otherwise: the smaller of the two |
| Arithmetic.I32Ssub | include/mbp/utils/arithmetic.hpp:28-31 | the exact difference when it is at least -2^(width-1), and that floor otherwise: the larger of the two |
| Arithmetic.I32Supd | include/mbp/utils/arithmetic.hpp:33-39 | moves by at most one toward dir and stays inside the signed range on that side |
| Arithmetic.I32SupdStep | include/mbp/utils/arithmetic.hpp:33-39 | an in-range signed value maps to an in-range value exactly one step toward dir, saturating at either end, with no int32 overflow |
| Arithmetic.U32Sll | include/mbp/utils/arithmetic.hpp:41-45 | the result is below 2^width |
| Arithmetic.U32SllIsProductMod | include/mbp/utils/arithmetic.hpp:41-45 | the result is reg * 2^amm modulo 2^width: the 32-bit wrap never shows |
| Arithmetic.U32Csll | include/mbp/utils/arithmetic.hpp:47-52 | the result fits in width bits |
| Arithmetic.U32CsllRotates | include/mbp/utils/arithmetic.hpp:47-52 | on a width-bit value, a shift by at most width places is a left rotation within those bits |
| Arithmetic.U32ToI32RoundTrip | include/mbp/utils/arithmetic.hpp:54-62 | i32_to_u32 undoes u32_to_i32 on every width-bit register |
| Arithmetic.I32ToU32RoundTrip | include/mbp/utils/arithmetic.hpp:54-62 | u32_to_i32 undoes i32_to_u32 on every signed width-bit value |
| Branches.Type | include/mbp/core/branch.hpp:58 | the base type is JMP, RET, CALL or the unused 0b11, and shares no bit with CND or IND |
| Branches.OpcodeFieldsPartition | include/mbp/core/branch.hpp:22-37 | TYPE, CND and IND are disjoint and together cover the NUMBER opcodes |
| Branches.OpcodeDecomposes | include/mbp/core/branch.hpp:53-58 | an opcode is exactly its type bits plus CND when conditional plus IND when indirect |
| SaturatedReg.NewSatCtr | include/mbp/utils/saturated_reg.hpp:17-23 | the constructed counter holds x, within [kMinValue, kMaxValue] |
| SaturatedReg.SatInc | include/mbp/utils/saturated_reg.hpp:34 | below the maximum the value grows by exactly 1; at the maximum nothing changes |
| SaturatedReg.SatDec | include/mbp/utils/saturated_reg.hpp:35 | above the minimum the value shrinks by exactly 1; at the minimum nothing changes |
| SaturatedReg.SatSumOrSub | include/mbp/utils/saturated_reg.hpp:27-32 | one step toward the side sum names, staying put exactly when already saturated on that side |
| SaturatedReg.SatIncThenDec | include/mbp/utils/saturated_reg.hpp:34-35 | below the maximum, `--` undoes `++` |
| SaturatedReg.SatRepeatDistance | include/mbp/utils/saturated_reg.hpp:27-35 | k steps one way move the counter k places or to the rail |
| SaturatedReg.SatRepeatSign | include/mbp/utils/saturated_reg.hpp:17-35 | 2^(N-1) steps in one direction make the counter's sign agree with it, from any value |
| SaturatedReg.NewUSatCtr | include/mbp/utils/saturated_reg.hpp:66-72 | the constructed counter holds x, within [0, 2^N - 1] |
| SaturatedReg.USatInc | include/mbp/utils/saturated_reg.hpp:85 | below 2^N - 1 the value grows by exactly 1; at it nothing changes |
| SaturatedReg.USatDecAsWritten | include/mbp/utils/saturated_reg.hpp:86 | `--` as written keeps the counter valid |
| SaturatedReg.USatDecAsWrittenClears | include/mbp/utils/saturated_reg.hpp:86 | `--` as written leaves 0 whatever the counter held |
| SaturatedReg.USatDecAsWrittenSkips | include/mbp/utils/saturated_reg.hpp:86 | counterexample: on a counter holding 2, `--` as written gives 0 rather than 1 |
| SaturatedReg.USatDec | include/mbp/utils/saturated_reg.hpp:86 | `--` as intended: above 0 the value shrinks by exactly 1; at 0 nothing changes |
| SaturatedReg.USatIncThenDec | include/mbp/utils/saturated_reg.hpp:85-86 | below the maximum the intended `--` undoes `++` |
| SaturatedReg.USatSumOrSub | include/mbp/utils/saturated_reg.hpp:78-88 | with the as-written `--`, a step up moves by at most one and a step down always clears |
| SaturatedReg.NewBatageCtr | include/mbp/utils/saturated_reg.hpp:130-136 | both counters as given, each within [0, 2^N - 1] |
| SaturatedReg.ConfidenceLevel | include/mbp/utils/saturated_reg.hpp:152-158 | the level is 0, 1 or 2: 2 when the larger counter exceeds twice the smaller plus one, 1 when it equals that, 0 otherwise |
| SaturatedReg.ConfidenceSymmetric | include/mbp/utils/saturated_reg.hpp:152-158 | swapping the two counters does not change the confidence |
| SaturatedReg.IsExcessivelyConfident | include/mbp/utils/saturated_reg.hpp:163-167 | holds exactly when the larger counter exceeds five times the smaller plus four |
| SaturatedReg.ExcessiveIsHigh | include/mbp/utils/saturated_reg.hpp:152-167 | excessive confidence implies confidence level 2 |
| SaturatedReg.Update | include/mbp/utils/saturated_reg.hpp:172-178 | the outcome's counter grows when below the maximum, else the other shrinks when positive, else nothing changes; both stay in range |
| SaturatedReg.UpdateMovesPrediction | include/mbp/utils/saturated_reg.hpp:172-178 | a taken update raises ctr1 - ctr0 by exactly one unless already saturated toward taken, and never lowers it; symmetrically for not taken |
| SaturatedReg.Decay | include/mbp/utils/saturated_reg.hpp:184-187 | equal counters stay; otherwise only the larger drops by one, so the prediction's magnitude shrinks by one and its sign never flips |
| Indexing.BitReverseBits | include/mbp/utils/indexing.hpp:21-29 | the butterfly loop sends bit i to bit 63 - i |
| Indexing.BitReverseInvolution | include/mbp/utils/indexing.hpp:21-29 | reversing twice gives the word back |
| Indexing.XorFold | include/mbp/utils/indexing.hpp:33-42 | the fold fits in width bits, and is 0 for width 0 |
| Indexing.XorFoldChunks | include/mbp/utils/indexing.hpp:33-42 | the loop computes the XOR of the word's consecutive width-bit chunks |
| Indexing.XorFoldOfFitting | include/mbp/utils/indexing.hpp:33-42 | a value that already fits in width bits is its own fold |
| Indexing.RoxFold | include/mbp/utils/indexing.hpp:44-50 | the fold fits in width bits, and is 0 for width 0 |
| Indexing.RoxFoldBits | include/mbp/utils/indexing.hpp:44-50 | bit j is bit j of the double-width XOR fold XOR its mirror bit 2w - 1 - j |
| Indexing.NewFoldWith | include/mbp/utils/indexing.hpp:98-101 | the fold holds foldVal; for a non-empty fold bitOut is the remainder of winLen by foldLen (below foldLen, with winLen - bitOut a multiple of foldLen), and 0 for foldLen 0 |
| Indexing.NewFold | include/mbp/utils/indexing.hpp:87-90 | the fold is 0; for a non-empty fold bitOut is the remainder of winLen by foldLen (below foldLen, with winLen - bitOut a multiple of foldLen), and 0 for foldLen 0 |
| Indexing.ShiftInAndOut | include/mbp/utils/indexing.hpp:128-147 | the returned value is the new fold, fits in foldLen bits, and is 0 for foldLen 0; length and bitOut are unchanged |
| FoldWindow.ShiftOneBits | include/mbp/utils/indexing.hpp:128-147 | a one-bit shift rotates the fold left within foldLen bits and injects the incoming bit at 0 and the outgoing bit at bitOut |
| FoldWindow.StreamIsWindowFold | include/mbp/utils/indexing.hpp:108-147 | a fold fed a history one bit at a time, each step with the bit leaving the window, equals the from-scratch fold of the newest winLen bits |
| FoldWindow.StreamIsXorFold | include/mbp/utils/indexing.hpp:33-66 | for windows of at most 64 bits that fold equals XorFold of the window word, as in the h[0..7] ^ h[7..14] ^ ... example |
| BimodalTable.NewBimodalArray | include/mbp/utils/bimodal_table.hpp:15 | (n + 15) >> 4 zeroed words, so every counter below n has a word |
| BimodalTable.Prediction | include/mbp/utils/bimodal_table.hpp:34-38 | the direction bit 2 (i mod 16) of word i / 16 is set exactly when the counter is non-negative |
| BimodalTable.Sign | include/mbp/utils/bimodal_table.hpp:40 | the same as prediction |
| BimodalTable.Counter | include/mbp/utils/bimodal_table.hpp:6-9 | the (direction, hysteresis) pair read as a signed 2-bit value in [-2, 1] |
| BimodalTable.Update | include/mbp/utils/bimodal_table.hpp:42-52 | only the two bits of counter i change, and the counter takes one saturating 2-bit step toward the outcome |
| BimodalTable.UpdateFrame | include/mbp/utils/bimodal_table.hpp:42-52 | every other counter reads the same afterwards |
| BimodalTable.UpdateAgreeing | include/mbp/utils/bimodal_table.hpp:45-47 | training with the predicted direction sets the hysteresis bit and keeps the prediction |
| BimodalTable.UpdateTwiceLearns | include/mbp/utils/bimodal_table.hpp:42-52 | two updates with the same outcome make the prediction that outcome |
| Histories.ValueConcat | include/mbp/examples/two_level.hpp:49-52 | the number a bit string denotes splits at any point into its low part plus the high part scaled by 2^(low length) |
| Histories.ShiftIn | include/mbp/examples/gshare.hpp:41-42 | shifting a bitset history keeps its length, puts the outcome at bit 0 and moves every other bit up one place, dropping the oldest |
| Histories.ShiftInValue | include/mbp/examples/gshare.hpp:41-42 | as a number the shifted history is twice the old one plus the outcome, less the bit that falls off the top, and stays below 2^H |
| Histories.ToWord | include/mbp/examples/gshare.hpp:30 | `to_ullong` zero-extends the history to 64 bits without changing its value |
| Histories.ShlValue | include/mbp/examples/gshare.hpp:30 | a left shift of a word whose high bits are clear multiplies its value by 2^s |
| Histories.OrShiftedValue | include/mbp/examples/two_level.hpp:49-52 | a word shifted past the history and OR-ed with it denotes the history plus the word scaled by 2^(history length) |
| Histories.ShiftAllBits | include/mbp/examples/gshare.hpp:39-43 | after a series of tracked outcomes, bit i of the history is the outcome tracked i calls ago, or the older history bit once the outcomes run out |
| Histories.ValueInjective | include/mbp/examples/two_level.hpp:49-52 | two histories of the same length with the same value are equal |
| CounterTables.NewTable | include/mbp/examples/bimodal.hpp:38 | the table a statically allocated predictor starts with: `size` counters of the given width, all 0 |
| CounterTables.TrainAt | include/mbp/examples/bimodal.hpp:44-46 | training an entry moves that counter toward the outcome and leaves every other entry alone |
| CounterTables.TrainTimes | include/mbp/examples/bimodal.hpp:44-46 | training one entry k times changes only that entry, to k saturating steps toward the outcome |
| CounterTables.TrainTimesLearns | include/mbp/examples/bimodal.hpp:42-46 | after 2^(bits-1) trainings toward an outcome the entry predicts it, whatever it held before |
| SbbtWriter.OpcodeMasksDisjoint | include/mbp/sim/sbbt_writer.hpp:29-34 | the conditional, indirect and type fields of the writer's opcode occupy disjoint bits, and the three branch types fit in the type field |
| SbbtWriter.LeBytes | include/mbp/sim/sbbt_writer.hpp:128-134 | a header word is stored as eight little-endian bytes |
| SbbtWriter.HeaderBytes | src/sim/sbbt_writer.cpp:89-102 | the header is 24 bytes: the mark spelling "SBBT\n" and version 1.0.0, then the instruction count, then the branch count |
| SbbtWriter.MarkBytes | include/mbp/sim/sbbt_writer.hpp:128-134 | the mark constant, written little-endian, is the bytes "SBBT\n", 1, 0, 0 |
| SbbtWriter.SignExtendedMeansTopBitsEqual | src/sim/sbbt_writer.cpp:25-28 | an address is a sign-extended 52-bit value exactly when its top 13 bits are all zero or all one |
| SbbtWriter.SignExtend52 | src/sim/sbbt_writer.cpp:25-28 | extending bit 51 over the top bits always yields an address the writer accepts |
| SbbtWriter.ShiftBack | src/sim/sbbt_writer.cpp:130-133 | shifting a packed word right by 12 recovers the low 52 bits of the address |
| SbbtWriter.SignExtendLow | src/sim/sbbt_writer.cpp:25-28 | an accepted address is recovered from its low 52 bits by sign extension |
| SbbtWriter.Word0Low | src/sim/sbbt_writer.cpp:130-131 | the first word holds the opcode in bits 0-3, zeros in the reserved bits and the outcome in bit 11 |
| SbbtWriter.Word0Unpack | src/sim/sbbt_writer.cpp:130-131 | the address of an accepted branch is recovered exactly from the first word |
| SbbtWriter.Word1Unpack | src/sim/sbbt_writer.cpp:132-133 | the target and the instruction gap are recovered exactly from the second word |
| SbbtWriter.PackUnpack | src/sim/sbbt_writer.cpp:104-136 | every record addBranch accepts is recovered exactly from its two words: address, target, outcome, opcode and gap |
| SbbtWriter.EmptyWriter | include/mbp/sim/sbbt_writer.hpp:136-146 | a writer with nothing added has an empty output stream |
| SbbtWriter.NewCounted | src/sim/sbbt_writer.cpp:30-38 | zero instructions is rejected first, then a name not ending in ".sbbt.zst", then a failed header write; on success the header with the given counts is the first output |
| SbbtWriter.NewDeferred | src/sim/sbbt_writer.cpp:40-42 | the writer that defers the header opens exactly the names ending in ".sbbt.zst", writing nothing yet |
| SbbtWriter.Validate | src/sim/sbbt_writer.cpp:104-128 | a branch is accepted exactly when the branch budget is not used up, the gap from the previous instruction number, computed modulo 2^64, is at most 4095, both addresses are sign-extended 52-bit values and the opcode is valid; the value is the gap |
| SbbtWriter.MoveToFront | src/sim/sbbt_writer.cpp:138-147 | the unwritten tail of the buffer is moved to its front unchanged |
| SbbtWriter.WriteBuffer | src/sim/sbbt_writer.cpp:138-147 | a write of the buffer keeps the logical output stream, drops what the sink accepted from the buffer, and fails exactly when the sink reports an error |
| SbbtWriter.AsWrittenOverflow | src/sim/sbbt_writer.cpp:129 | with the buffer one word short of full, the equality test does not flush, and the second word of the record does not fit |
| SbbtWriter.Append | src/sim/sbbt_writer.cpp:130-133 | storing a record adds its two words to the end of the output stream |
| SbbtWriter.Store | src/sim/sbbt_writer.cpp:129-133 | with the flush test written as "fewer than two free words", a record is stored without an error whenever no flush is needed, and the buffer never overflows |
| SbbtWriter.AddBranch | src/sim/sbbt_writer.cpp:104-136 | a rejected branch changes nothing; an accepted one appends its two words to the output, counts one more branch and becomes the last instruction number |
| SbbtWriter.Flush | src/sim/sbbt_writer.cpp:149-151 | a successful flush leaves the buffer empty and the output equal to every word added so far |
| SbbtWriter.Close | src/sim/sbbt_writer.cpp:157-170 | closing reports a header whose instruction count differs from the given one, then a branch-count mismatch; a successful close has written the whole stream |
| SbbtWriter.CloseDefault | src/sim/sbbt_writer.cpp:153-155 | close() uses the header's instruction count, or the last branch's instruction number when the header was deferred |
| SbbtWriter.Encode | src/sim/sbbt_writer.cpp:130-133 | a run of branches is encoded as two words per branch |
| SbbtWriter.EncodeAppend | src/sim/sbbt_writer.cpp:130-135 | encoding one more branch appends its words, with its gap taken from the previous branch |
| SbbtWriter.AddedStep | src/sim/sbbt_writer.cpp:134-135 | accepting the next branch of a run keeps the stream equal to the encoding of the accepted prefix |
| SbbtWriter.AddNext | src/sim/sbbt_writer.cpp:104-136 | an addBranch call extends the accepted prefix of a run by one, or leaves it as it was on an error |
| SbbtWriter.AddAll | include/mbp/sim/sbbt_writer.hpp:102-121 | after a run of addBranch calls, the branch count has grown by the number accepted and the output is the encoding of the accepted prefix; with no error every branch is accepted |
| SbbtReader.MarkConstants | include/mbp/sim/sbbt_reader.hpp:72-74 | the unversioned mark is the versioned one under the mask, and the versioned mark is the one the writer writes |
| SbbtReader.FindLastOf | src/sim/sbbt_reader.cpp:26 | the found position holds the character, lies at or before the start position, and no later position up to it holds the character |
| SbbtReader.LastOfIs | src/sim/sbbt_reader.cpp:41 | the search finds the last occurrence at or before the start position |
| SbbtReader.CompressedFormat | src/sim/sbbt_reader.cpp:45-82 | the text from the second-to-last dot names xz, zstd, lz4 or gzip by its exact suffix, and anything else is an unknown format |
| SbbtReader.CompressedDots | src/sim/sbbt_reader.cpp:41-45 | in a path ending ".sbbt.ext" the last dot starts ".ext" and the one before starts ".sbbt.ext" |
| SbbtReader.ClassifySuffix | src/sim/sbbt_reader.cpp:24-83 | a path ending in a format's suffix is read in that format |
| SbbtReader.ClassifiedHasSuffix | src/sim/sbbt_reader.cpp:24-83 | a path read in some format ends in that format's suffix, and a plain trace has a name before ".sbbt" |
| SbbtReader.ClassifyBySuffix | src/sim/sbbt_reader.cpp:24-83 | the reader accepts a path in a format exactly when the path ends in that format's suffix |
| SbbtReader.WriterNamesReadAsZstd | src/sim/sbbt_reader.cpp:55-63 | the names the writer accepts are exactly the names the reader decompresses with zstd |
| SbbtReader.Fields | src/sim/sbbt_reader.cpp:13-22 | the record's bit fields are a 12-bit gap, 52-bit addresses and a 2-bit type |
| SbbtReader.ToBranch | src/sim/sbbt_reader.cpp:119-127 | the branch has the record's type, is conditional when the flag is set, indirect when the direct flag is clear, taken on the outcome bit, with the record's addresses |
| SbbtReader.DecodeRecord | src/sim/sbbt_reader.cpp:116-127 | a 16-byte record decodes to a gap below 4096 and a valid opcode |
| SbbtReader.Groups | include/mbp/sim/sbbt_reader.hpp:77 | a stream splits into as many 16-byte records as fit whole |
| SbbtReader.GroupsAt | include/mbp/sim/sbbt_reader.hpp:77 | record k is bytes 16k to 16k+15 |
| SbbtReader.Records | src/sim/sbbt_reader.cpp:93-129 | a stream holds one decoded record per whole 16 bytes |
| SbbtReader.RecordsAt | src/sim/sbbt_reader.cpp:116-118 | record k is the decoding of bytes 16k to 16k+15 |
| SbbtReader.NewReader | include/mbp/sim/sbbt_reader.hpp:82-86 | a new reader has an empty live window and a zero instruction counter |
| SbbtReader.Compact | src/sim/sbbt_reader.cpp:103-107 | moving the partial record to the front of the buffer keeps the live bytes and the reader's position in the stream |
| SbbtReader.ReadChunk | src/sim/sbbt_reader.cpp:108-110 | a read appends the next chunk after the live window, which the buffer always has room for |
| SbbtReader.FedPrefix | src/sim/sbbt_reader.cpp:108-110 | the bytes read so far are a prefix of the stream |
| SbbtReader.RecordOfPrefix | src/sim/sbbt_reader.cpp:116-118 | a whole record among the bytes read so far is the stream's record at that position |
| SbbtReader.Refill | src/sim/sbbt_reader.cpp:97-114 | the refill loop ends with a whole record live, at the end of the stream with less than a record left, or on a read error |
| SbbtReader.LiveRecord | src/sim/sbbt_reader.cpp:116-118 | the 16 live bytes at the start are the stream's bytes at the reader's position |
| SbbtReader.NextBranchOf | src/sim/sbbt_reader.cpp:93-129 | nextBranch returns the stream's next record with its instruction number, the running sum of the gaps, and reports the end (INT64_MAX) once less than a record is left at the end of the stream |
| SbbtReader.EofAfterRecord | src/sim/sbbt_reader.cpp:89-91 | right after a record is taken, `eof()` holds exactly when it was the last whole record and the read that delivered its final byte was the stream's last, given that the reader fetches a chunk only while less than a record is live |
| SbbtReader.GapSumMonotone | include/mbp/sim/sbbt_reader.hpp:41-48 | instruction numbers never decrease along the trace |
| SbbtReader.ReadStep | src/sim/sbbt_reader.cpp:119 | numbering the next record with the running sum keeps every returned branch numbered by the gaps before it |
| SbbtReader.ReadAll | include/mbp/sim/sbbt_reader.hpp:41-48 | whatever the read sizes, the branches returned are the stream's records in order, each numbered by the sum of the gaps so far, and a trailing partial record is never returned |
| Predictors.RepeatedPredictAgrees | include/mbp/sim/predictor.hpp:19-28 | a predictor whose predict does not disturb later predictions gives the same answer when asked twice |
| Simulator.StopAt | src/sim/simulator.cpp:57-61 | simulation stops after the warm-up plus the simulation instructions, or never when no simulation count is given |
| Simulator.SentinelStops | src/sim/simulator.cpp:80 | the reader's end-of-trace value always ends the loop |
| Simulator.TotalConcat | src/sim/simulator.cpp:127-130 | the occurrences and misses of two tables add up |
| Simulator.Count | src/sim/simulator.cpp:86-89 | counting a branch adds an entry for its address only when there was none |
| Simulator.CountIps | src/sim/simulator.cpp:86 | after counting a branch its address is in the table, and no other address is added |
| Simulator.CountTotal | src/sim/simulator.cpp:86-89 | counting a branch adds one occurrence, and one miss when it was mispredicted, to the table's totals |
| Simulator.Simulate1Counts | src/sim/simulator.cpp:81-92 | one loop iteration counts a branch exactly when it is conditional and at or past the warm-up, counts at most one miss, keeps the table's totals equal to the counters' growth and adds only the branch's address |
| Simulator.RunStep | src/sim/simulator.cpp:80-93 | the loop over one more record is one more iteration on that record, numbered by the sum of the gaps |
| Simulator.RunCounts | src/sim/simulator.cpp:84-90 | after any prefix of the trace, numBranches counts the conditional branches past the warm-up, mispredictions never exceed it, and the per-address occurrences and misses sum to the two counters |
| Simulator.RunIps | src/sim/simulator.cpp:86-89 | the per-address table has one entry per address of a counted branch, and no other |
| Simulator.BelowStop | src/sim/simulator.cpp:80 | since instruction numbers never decrease, every record before the last one processed was below the stop point |
| Simulator.RunKeeps | src/sim/simulator.cpp:80-93 | a property of predictor states that holds initially and survives one iteration (predict, train when conditional, track) holds of the state before every iteration of the loop |
| Simulator.Simulation | src/sim/simulator.cpp:64-93 | the loop processes exactly the longest prefix of the trace whose instruction numbers are below the stop point, its counters and predictor state are those of the loop on that prefix, and a read error is the only failure; `eof()` afterwards holds exactly when the trace was read to its end, or when the loop stopped at the last record and the read that delivered it was the stream's last; the exhausted flag holds exactly when the loop ran out of trace |
| Simulator.EofAtStopPoint | src/sim/simulator.cpp:106-116 | a one-record trace delivered by one read, whose record reaches the stop point, is not processed, yet `eof()` holds and the run gets the exhausted-trace exit code |
| Simulator.RanOutBeforeStop | src/sim/simulator.cpp:80-93 | where the loop stops, it has run out of trace exactly when every record of the trace lies below the stop point; a report built on that flag gives the exhausted-trace exit code exactly then, and a run with a simulation count that reached the stop point gets exit code 0 and that count as denominator |
| Simulator.ReadNext | src/sim/sbbt_reader.cpp:93-129 | after k records the reader returns record k numbered by the gaps so far, or the end when no whole record is left |
| Simulator.MetricOf | src/sim/simulator.cpp:106-116 | the metric denominator is the instructions after the warm-up when no count is given, the requested count otherwise, and every instruction read when the trace ran out first, which is also the only case with the exhausted-trace exit code |
| Simulator.Insert | src/sim/simulator.cpp:122-125 | inserting an entry keeps every entry and adds it once |
| Simulator.InsertSorted | src/sim/simulator.cpp:122-125 | inserting into a table sorted by decreasing misses keeps it sorted |
| Simulator.InsertTotal | src/sim/simulator.cpp:122-125 | inserting an entry adds its occurrences and misses to the totals |
| Simulator.SortByMisses | src/sim/simulator.cpp:122-125 | sorting permutes the table |
| Simulator.SortSorted | src/sim/simulator.cpp:122-125 | the sorted table is in decreasing order of misses |
| Simulator.SortTotal | src/sim/simulator.cpp:122-125 | sorting keeps the totals |
| Simulator.KeepIndex | src/sim/simulator.cpp:126-130 | the kept prefix is the shortest whose misses reach half of all mispredictions |
| Simulator.MostFailed | src/sim/simulator.cpp:118-131 | the most failed branches are a prefix of the table sorted by misses, together account for at least half of the mispredictions, and no shorter prefix does |
| Bimodal.BimodalConfig | include/mbp/examples/bimodal.hpp:14-16 | Bimodal is the case of two-bit counters, with any table width below 31, the range the `int` shift `1 << T` sizing the table allows |
| Bimodal.Init | include/mbp/examples/bimodal.hpp:36-38 | the predictor starts with 2^T counters at zero, as in static storage |
| Bimodal.Hash | include/mbp/examples/bimodal.hpp:40 | the hash always selects one of the 2^T counters |
| Bimodal.HashIsLowBits | include/mbp/examples/bimodal.hpp:40 | the hash is the number formed by the address's low T bits |
| Bimodal.SameEntry | include/mbp/examples/bimodal.hpp:40 | two addresses share a counter exactly when their low T bits agree |
| Bimodal.Train | include/mbp/examples/bimodal.hpp:44-46 | training steps the address's counter toward the outcome and leaves every other counter as it was |
| Bimodal.TrainRepeatIsTrainTimes | include/mbp/examples/bimodal.hpp:44-46 | repeated training on one branch only ever moves that branch's counter |
| Bimodal.TrainRepeatLearns | include/mbp/examples/bimodal.hpp:42-46 | after 2^(N-1) trainings on a branch the predictor predicts its outcome, whatever the table held |
| Bimodal.AsPredictor | include/mbp/examples/bimodal.hpp:42-48 | predict leaves the state unchanged and track does nothing, as the interface asks of a predictor without history |
| Gshare.Init | include/mbp/examples/gshare.hpp:23-24 | the predictor starts with 2^T counters at zero, as in static storage, and an empty history |
| Gshare.Hash | include/mbp/examples/gshare.hpp:26-31 | the hash always selects one of the 2^T counters |
| Gshare.HistoryPlacement | include/mbp/examples/gshare.hpp:27-30 | history bit p lands on address bit p + T - (H mod T), and the shifted history never loses a bit |
| Gshare.ShiftAligned | include/mbp/examples/gshare.hpp:27-29 | the shift puts the oldest history bit on the last bit of a fold chunk, so the fewest history bits meet the low address bits |
| Gshare.HashWithoutHistory | include/mbp/examples/gshare.hpp:30 | with an all-zero history the hash is the XOR fold of the address alone |
| Gshare.Train | include/mbp/examples/gshare.hpp:35-37 | training steps the counter the address and history select toward the outcome, and changes nothing else |
| Gshare.TrainTwiceLearns | include/mbp/examples/gshare.hpp:33-37 | two trainings on the same branch with the same history make the predictor predict its outcome |
| Gshare.Track | include/mbp/examples/gshare.hpp:39-43 | tracking shifts the outcome into bit 0 of the history, unless unconditional branches are ignored and this is one, and never touches the table |
| Gshare.TrackValue | include/mbp/examples/gshare.hpp:41-42 | as a number, a tracked history becomes twice the old one plus the outcome, modulo 2^H |
| Gshare.Recorded | include/mbp/examples/gshare.hpp:40 | every tracked branch is recorded unless unconditional ones are ignored |
| Gshare.TrackAllHistory | include/mbp/examples/gshare.hpp:39-43 | after a run of tracked branches the history is the old one with the recorded outcomes shifted in, and the table is unchanged |
| Gshare.HistoryIsLatestOutcomes | include/mbp/examples/gshare.hpp:24 | history bit i is the outcome recorded i branches before the last |
| Gshare.AsPredictor | include/mbp/examples/gshare.hpp:33-43 | predict leaves the state unchanged, as the interface asks |
| Gshare.PredictIsPure | include/mbp/sim/predictor.hpp:19-28 | gshare's predict does not disturb later predictions |
| TwoLevel.Init | include/mbp/examples/two_level.hpp:43-44 | the predictor starts with 2^HNUM cleared histories and 2^(PNUM+HLEN) counters at zero, as in static storage |
| TwoLevel.Field | include/mbp/examples/two_level.hpp:47 | an address field of n bits has nothing above bit n |
| TwoLevel.FieldBits | include/mbp/examples/two_level.hpp:47 | bit j of the field is address bit shift + j for j below n, and 0 above |
| TwoLevel.BhrHash | include/mbp/examples/two_level.hpp:46-48 | the history register index is always one of the 2^HNUM registers |
| TwoLevel.GlobalHistory | include/mbp/examples/two_level.hpp:25 | with HNUM = 0 every branch shares one history register |
| TwoLevel.PhrHashSplit | include/mbp/examples/two_level.hpp:50-53 | the pattern index is the selected history in the low HLEN bits with the PNUM-bit address field above it, and stays inside the table |
| TwoLevel.PhrHashInjective | include/mbp/examples/two_level.hpp:50-53 | two branches share a counter only when they see the same history and the same address field |
| TwoLevel.GlobalPatternTable | include/mbp/examples/two_level.hpp:28 | with PNUM = 0 the pattern index is the history alone |
| TwoLevel.Train | include/mbp/examples/two_level.hpp:57-59 | training steps the selected counter toward the outcome and changes nothing else |
| TwoLevel.TrainTwiceLearns | include/mbp/examples/two_level.hpp:55-59 | two trainings on the same branch with the same history make the predictor predict its outcome |
| TwoLevel.Track | include/mbp/examples/two_level.hpp:61-64 | tracking shifts the outcome into the branch's history register only; the other registers and the counters stay |
| TwoLevel.TrackValue | include/mbp/examples/two_level.hpp:62-63 | as a number, the selected history becomes twice the old one plus the outcome, modulo 2^HLEN |
| TwoLevel.AsPredictor | include/mbp/examples/two_level.hpp:55-64 | predict leaves the state unchanged, as the interface asks |
| Tournament.Init | include/mbp/examples/tournament.hpp:14-19 | a tournament starts from the given component predictors with every chooser counter at zero, as in static storage |
| Tournament.Hash | include/mbp/examples/tournament.hpp:63-65 | the chooser index is always one of the 2^T counters, in both variants |
| Tournament.ChooserFold | include/mbp/examples/tournament.hpp:21 | the folded address, and in the gshare variant its rotate-fold XOR-ed with the folded history, fits in T bits |
| Tournament.Predict | include/mbp/examples/tournament.hpp:67-73 | both components are asked, and the chooser selects component 1 when non-negative and component 0 otherwise; the choosers and history are untouched |
| Tournament.AgreementDecides | include/mbp/examples/tournament.hpp:23-29 | when the components agree, the tournament predicts what they predict, whatever the chooser says |
| Tournament.Train | include/mbp/examples/tournament.hpp:75-81 | both components train; the chooser moves toward component 1 exactly when the two disagreed and component 1 was right, toward component 0 when they disagreed and it was wrong, and no other chooser changes |
| Tournament.ChooserLearns | include/mbp/examples/tournament.hpp:31-37 | after 2^(bits-1) disagreements resolved in favour of one component, the chooser selects that component |
| Tournament.Track | include/mbp/examples/tournament.hpp:83-88 | both components track the branch, the gshare variant shifts the outcome into its history, and the choosers stay |
| Tournament.PredictKeepsPredictions | include/mbp/sim/predictor.hpp:19-28 | when both components' predict calls leave later predictions unchanged, so does the tournament's, although it caches the choice |
| TwoBcGskew.Init | include/mbp/examples/2bcgskew.hpp:24-34 | the predictor starts with zeroed tables, as in static storage, a zeroed history, and nothing cached (tracked is true) |
| TwoBcGskew.RecentHistory | include/mbp/examples/2bcgskew.hpp:39 | masking the history keeps exactly its newest len bits |
| TwoBcGskew.GHash | include/mbp/examples/2bcgskew.hpp:38-48 | each history-hashed index selects one of the 2^width counters of its table |
| TwoBcGskew.BimHash | include/mbp/examples/2bcgskew.hpp:36 | the bimodal index selects one of the 2^BT counters |
| TwoBcGskew.Fresh | include/mbp/examples/2bcgskew.hpp:55-64 | a fresh computation yields indices inside their tables and predictions read from those counters |
| TwoBcGskew.Predict | include/mbp/examples/2bcgskew.hpp:50-66 | predict never changes a table or the history; a repeated address with nothing tracked in between returns the cached prediction, and otherwise the cache is recomputed for the address |
| TwoBcGskew.PredictTwice | include/mbp/examples/2bcgskew.hpp:51 | a second predict of the same address changes nothing and returns the same prediction |
| TwoBcGskew.PredictIsFresh | include/mbp/examples/2bcgskew.hpp:50-66 | on a coherent state, predict returns what a fresh computation gives and leaves a coherent state |
| TwoBcGskew.FreshPrediction | include/mbp/examples/2bcgskew.hpp:63-64 | the vote is the majority of the bimodal and two gskew predictions, and the prediction is the vote when the meta counter is non-negative, else the bimodal prediction |
| TwoBcGskew.MetaUpdate | include/mbp/examples/2bcgskew.hpp:72-78 | the meta update touches only the cached meta counter |
| TwoBcGskew.MetaUpdateKeepsCorrectPrediction | include/mbp/examples/2bcgskew.hpp:83-85 | when the prediction was right, the meta update cannot change it |
| TwoBcGskew.Train | include/mbp/examples/2bcgskew.hpp:68-110 | train first completes the prediction for the branch, leaves the history alone and keeps the cache |
| TwoBcGskew.Strengthen | include/mbp/examples/2bcgskew.hpp:104-108 | a guarded strengthening steps the counter when the guard holds and leaves the table otherwise |
| TwoBcGskew.TrainAssertionHolds | include/mbp/examples/2bcgskew.hpp:85 | in the simulator's order of calls, the assertion in train always holds |
| TwoBcGskew.TrainWhenWrong | include/mbp/examples/2bcgskew.hpp:86-91 | when the prediction is still wrong after the meta update, all three components step toward the outcome |
| TwoBcGskew.TrainWhenUnanimous | include/mbp/examples/2bcgskew.hpp:96-102 | when the three components agree and the prediction is right, none of them changes, and then the original prediction was right too |
| TwoBcGskew.TrainWhenRight | include/mbp/examples/2bcgskew.hpp:103-109 | a right prediction with split components strengthens the right components when the vote was chosen, and the bimodal one otherwise |
| TwoBcGskew.TrainMeta | include/mbp/examples/2bcgskew.hpp:72-78 | the meta counter moves toward the vote's correctness when the vote and the bimodal prediction differ, is strengthened when they agree and were right, and stays otherwise; no other meta counter moves |
| TwoBcGskew.Track | include/mbp/examples/2bcgskew.hpp:112-116 | tracking shifts the outcome into the history, marks the cache unusable and changes no table |
| TwoBcGskew.StepCoherent | include/mbp/examples/2bcgskew.hpp:112-116 | from any well-formed state, one loop iteration (predict, train when conditional, track) ends well formed with the cache coherent, because track marks it unusable |
| TwoBcGskew.SimulationCoherent | src/sim/simulator.cpp:80-93 | from a coherent start such as the constructed predictor, every state the simulation loop reaches is coherent, so every predict the loop makes returns the fresh prediction |
| TwoBcGskew.PredictKeepsPredictions | include/mbp/sim/predictor.hpp:19-28 | although predict caches its work, on a coherent state it does not change any later prediction |
| HashedPerceptron.Init | include/mbp/examples/hashed_perceptron.hpp:35-50 | the predictor starts with all weights at zero, as in static storage, theta at 10, the misprediction counter at 0 and nothing cached |
| HashedPerceptron.Index | include/mbp/examples/hashed_perceptron.hpp:58-60 | each table index selects one of the 2^T weights |
| HashedPerceptron.Selected | include/mbp/examples/hashed_perceptron.hpp:59-62 | one selected weight per table, each within the 8-bit range |
| HashedPerceptron.Fresh | include/mbp/examples/hashed_perceptron.hpp:57-63 | a fresh computation yields indices inside their tables |
| HashedPerceptron.SumBounds | include/mbp/examples/hashed_perceptron.hpp:61 | the sum of NUMT 8-bit weights lies between -128 NUMT and 127 NUMT |
| HashedPerceptron.SumMonotone | include/mbp/examples/hashed_perceptron.hpp:61 | raising every selected weight cannot lower the sum |
| HashedPerceptron.Predict | include/mbp/examples/hashed_perceptron.hpp:52-64 | predict changes no weight, history or threshold; a repeated address with nothing tracked in between returns the cached answer, and otherwise the cache is recomputed |
| HashedPerceptron.FreshPrediction | include/mbp/examples/hashed_perceptron.hpp:63 | the prediction is taken exactly when the selected weights sum to a positive number |
| HashedPerceptron.PredictTwice | include/mbp/examples/hashed_perceptron.hpp:53 | a second predict of the same address changes nothing and returns the same answer |
| HashedPerceptron.PredictIsFresh | include/mbp/examples/hashed_perceptron.hpp:52-64 | on a coherent state, predict returns what a fresh computation gives and leaves a coherent state |
| HashedPerceptron.Adapt | include/mbp/examples/hashed_perceptron.hpp:74-84 | the misprediction counter stays strictly inside plus or minus the threshold, and theta rises by one exactly when a misprediction reaches the threshold, or falls by one exactly when a correct one reaches minus the threshold, resetting the counter |
| HashedPerceptron.AdaptTimes | include/mbp/examples/hashed_perceptron.hpp:74-84 | repeated adaptation keeps the counter strictly inside plus or minus the threshold |
| HashedPerceptron.AdaptCounts | include/mbp/examples/hashed_perceptron.hpp:75 | below the threshold, each misprediction only counts |
| HashedPerceptron.ThresholdRises | include/mbp/examples/hashed_perceptron.hpp:75-78 | MISP_THRESH mispredictions in a row from zero raise theta by exactly one and reset the counter |
| HashedPerceptron.AdaptTimesLast | include/mbp/examples/hashed_perceptron.hpp:74-84 | k + 1 adaptations are one more adaptation after k |
| HashedPerceptron.StepWeights | include/mbp/examples/hashed_perceptron.hpp:71-73 | every table's selected weight steps toward the outcome and no other weight changes |
| HashedPerceptron.Train | include/mbp/examples/hashed_perceptron.hpp:66-85 | after completing the prediction, nothing more changes when it was right by at least theta; otherwise every selected weight steps toward the outcome and the threshold adapts |
| HashedPerceptron.ThetaStep | include/mbp/examples/hashed_perceptron.hpp:74-84 | theta moves by at most one per training |
| HashedPerceptron.TrainMovesSum | include/mbp/examples/hashed_perceptron.hpp:70-73 | training moves the trained address's sum toward the outcome: never down when taken, never up when not taken |
| HashedPerceptron.Track | include/mbp/examples/hashed_perceptron.hpp:87-95 | tracking pushes the outcome into the ring, marks the cache unusable and leaves the weights and threshold alone |
| HashedPerceptron.StepCoherent | include/mbp/examples/hashed_perceptron.hpp:87-95 | from any well-formed state, one loop iteration (predict, train when conditional, track) ends well formed with the cache coherent, because track marks it unusable |
| HashedPerceptron.SimulationCoherent | src/sim/simulator.cpp:80-93 | from a coherent start such as the constructed predictor, every state the simulation loop reaches is coherent, so every predict the loop makes returns the fresh prediction |
| HashedPerceptron.InitHolds | include/mbp/examples/hashed_perceptron.hpp:35-50 | the new predictor's ring and folds describe the empty history |
| HashedPerceptron.TrackHolds | include/mbp/examples/hashed_perceptron.hpp:87-93 | tracking extends the history the ring and folds describe by the outcome |
| HashedPerceptron.IndexIsWindowFold | include/mbp/examples/hashed_perceptron.hpp:58-60 | table i is indexed by the folded address XOR the XOR fold of the newest hlen[i] outcomes |
| HashedPerceptron.PredictKeepsPredictions | include/mbp/sim/predictor.hpp:19-28 | although predict caches its work, on a coherent state it does not change any later prediction |
| TaggedHashes.IndexHash | include/mbp/examples/tage.hpp:85-86 | the index of every table is one of its 2^idxWidth entries |
| TaggedHashes.TagShiftAsWritten | include/mbp/examples/tage.hpp:87 | the shift amount computed on unsigned 32-bit operands is the excess of the tag width when the tag is at least as wide as the index |
| TaggedHashes.TagShiftAsWrittenWraps | include/mbp/examples/tage.hpp:87 | when the tag is narrower than the index the unsigned subtraction wraps to 2^32 minus the difference, at least 64, and the maximum with 0 never applies |
| TaggedHashes.NarrowTagShift | include/mbp/examples/batage.hpp:100 | a table with a 10-bit index and 7-bit tags gets a shift of 4294967293 places |
| TaggedHashes.TagShift | include/mbp/examples/tage.hpp:87 | the intended shift is never more than the tag width, and 0 when the tag is narrower than the index |
| TaggedHashes.TagShiftAgrees | include/mbp/examples/tage.hpp:87 | the written shift is a valid 64-bit shift exactly when the tag is at least as wide as the index, and then it equals the intended one |
| TaggedHashes.TagHash | include/mbp/examples/tage.hpp:87-88 | the tag of every table fits its tag width |
| TaggedHashes.NoTagBits | include/mbp/examples/tage.hpp:88 | a table with no tag bits tags every address 0 |
| GlobalHistory.NewRing | include/mbp/examples/tage.hpp:80 | the history buffer starts cleared, with its index at 0 |
| GlobalHistory.NewRingHolds | include/mbp/examples/tage.hpp:62-63 | a cleared buffer describes the empty history |
| GlobalHistory.Push | include/mbp/examples/tage.hpp:154-155 | the index moves back one slot, wrapping from 0 to the end, and the outcome is stored there |
| GlobalHistory.ModSmall | include/mbp/examples/tage.hpp:157 | the remainder of a number below twice the buffer length is the number itself or the number minus the length |
| GlobalHistory.PushHolds | include/mbp/examples/tage.hpp:154-155 | storing an outcome makes the buffer describe the history extended by that outcome |
| GlobalHistory.OutgoingIs | include/mbp/examples/tage.hpp:157 | the bit read for a window of len outcomes is the outcome tracked len branches before, because the buffer is longer than every window |
| GlobalHistory.MaxLen | include/mbp/examples/tage.hpp:68-80 | the buffer length is one more than the longest window, so it is longer than every window |
| GlobalHistory.NewFolds | include/mbp/examples/tage.hpp:76-77 | every fold starts at zero with its table's width |
| GlobalHistory.ShiftFolds | include/mbp/examples/tage.hpp:156-160 | every fold keeps its width and window when it shifts the outcome in and its window's outgoing outcome out |
| GlobalHistory.NewFoldsHold | include/mbp/examples/tage.hpp:76-77 | new folds describe the empty history |
| GlobalHistory.ShiftFoldsHold | include/mbp/examples/tage.hpp:153-161 | after track every fold is still the fold of its window of the newest outcomes |
| GlobalHistory.FoldsAreWindowFolds | include/mbp/examples/tage.hpp:85 | each fold is the XOR fold of its table's window of the newest outcomes |
| Tage.Lens | include/mbp/examples/tage.hpp:71 | each table's history length is the one its specification gives |
| Tage.IdxWidths | include/mbp/examples/tage.hpp:72 | each table's index width is the one its specification gives |
| Tage.TagWidths | include/mbp/examples/tage.hpp:73 | each table's tag width is the one its specification gives |
| Tage.RingSize | include/mbp/examples/tage.hpp:78-80 | the history buffer is longer than every table's window |
| Tage.Init | include/mbp/examples/tage.hpp:53-81 | the constructed predictor has zero entries and nothing cached (updatedGhist is true); its meta counters, which the constructor does not initialise, are 0 as in static storage |
| Tage.NewTables | include/mbp/examples/tage.hpp:70 | each table has 2^idxWidth zero entries |
| Tage.WeakEntryValid | include/mbp/examples/tage.hpp:138-140 | an allocated entry fits its table's widths |
| Tage.ZeroEntriesValid | include/mbp/examples/tage.hpp:70 | a zero entry fits every table |
| Tage.UtlFacts | include/mbp/examples/tage.hpp:120-121 | a usefulness value is a 32-bit value that can be incremented without wrapping |
| Tage.Hits | include/mbp/examples/tage.hpp:104 | a table hits when its indexed entry carries the tag computed for it |
| Tage.Scan | include/mbp/examples/tage.hpp:103-108 | the search loop stops at the highest hitting table at or below its start, or at the base table when none hits |
| Tage.MetaHash | include/mbp/examples/tage.hpp:92-94 | the meta index is m0 folded to 7 bits, doubled, plus whether m1 is weak, and lies inside the 256-counter table |
| Tage.MetaHashInjective | include/mbp/examples/tage.hpp:92-94 | with fewer than 128 tables, distinct pairs of m0 and m1's weakness get distinct meta counters |
| Tage.MetaHashSmall | include/mbp/examples/tage.hpp:93 | with fewer than 128 tables the fold leaves m0 as it is |
| Tage.Indices | include/mbp/examples/tage.hpp:84-86 | every table's index lies inside that table |
| Tage.Tags | include/mbp/examples/tage.hpp:87-88 | every table's tag fits its tag width |
| Tage.Select | include/mbp/examples/tage.hpp:103-113 | the saved selection is consistent and keeps the computed indices and tags |
| Tage.Fresh | include/mbp/examples/tage.hpp:96-114 | a fresh computation yields a consistent selection |
| Tage.FreshSelection | include/mbp/examples/tage.hpp:103-113 | m0 is the longest hitting tagged table or the base table, m1 the longest hitting one below it, m1 provides exactly when m0 is tagged and weak and its meta counter is non-negative, and the prediction is the provider's counter sign |
| Tage.Predict | include/mbp/examples/tage.hpp:96-114 | predict changes no table, meta counter or history; a repeated address with nothing tracked in between returns the saved answer, and otherwise the selection is recomputed |
| Tage.PredictTwice | include/mbp/examples/tage.hpp:97 | a second predict of the same address changes nothing and returns the same answer |
| Tage.PredictIsFresh | include/mbp/examples/tage.hpp:96-114 | on a coherent state predict returns the fresh prediction and leaves a coherent state |
| Tage.Step | include/mbp/examples/tage.hpp:119-121 | the counter moves toward the outcome, saturating at its signed width, and the usefulness toward whether the prediction was right, saturating at its unsigned width and at 0 |
| Tage.UtlStep | include/mbp/examples/tage.hpp:120-121 | the saturated usefulness update adds or subtracts one within 0 and the width's maximum |
| Tage.SetEntry | include/mbp/examples/tage.hpp:138-140 | writing a valid entry keeps every table valid |
| Tage.StepM0 | include/mbp/examples/tage.hpp:119-123 | m0's updated entry fits its table |
| Tage.UpdateProviders | include/mbp/examples/tage.hpp:119-128 | m0's entry is stepped, m1's too when it provided, and no other table changes |
| Tage.UpdateMeta | include/mbp/examples/tage.hpp:129-131 | the meta counter moves toward m1's correctness exactly when m0 is tagged and weak and the two disagreed, and otherwise stays |
| Tage.FirstFree | include/mbp/examples/tage.hpp:136-144 | the allocation loop stops at the first table above m0 whose indexed entry has usefulness 0, or after the last table |
| Tage.LessUseful | include/mbp/examples/tage.hpp:147 | decaying an entry lowers only its usefulness, by one and not below 0 |
| Tage.Decay | include/mbp/examples/tage.hpp:145-149 | every indexed entry above m0 becomes less useful and nothing else changes |
| Tage.Allocate | include/mbp/examples/tage.hpp:134-150 | the first free table above m0 gets a new entry with the branch's tag, a weak counter toward the outcome and usefulness 1, and nothing else changes; with no free table every indexed entry above m0 decays |
| Tage.Train | include/mbp/examples/tage.hpp:116-151 | train completes the prediction first, then updates the providers, the meta counter and the allocation, leaving the history, folds and saved values alone |
| Tage.TrainTables | include/mbp/examples/tage.hpp:119-150 | the trained tables stay valid |
| Tage.TrainFrames | include/mbp/examples/tage.hpp:116-151 | training changes no table below m0 other than m1, and no table above m0 unless it allocates |
| Tage.AllocateAt | include/mbp/examples/tage.hpp:137-142 | where there is room, the allocated entry is the new one |
| Tage.FreeUnchanged | include/mbp/examples/tage.hpp:134-137 | updating the providers does not change which table above m0 is free |
| Tage.AllocationHits | include/mbp/examples/tage.hpp:134-144 | when both the prediction and m0 were wrong and there is room, the first table above m0 that was not useful gets the branch's tag, so the same address and history will hit there |
| Tage.AllocationDecays | include/mbp/examples/tage.hpp:145-149 | when both were wrong and there is no room, every indexed entry above m0 becomes less useful |
| Tage.TrainUsesFresh | include/mbp/examples/tage.hpp:116-117 | on a coherent state, train works with the fresh prediction's selection |
| Tage.FirstFreeFrame | include/mbp/examples/tage.hpp:136-137 | the allocation loop looks only at tables above m0 |
| Tage.Track | include/mbp/examples/tage.hpp:153-162 | tracking pushes the outcome into the history buffer, marks the saved values stale and changes no table or meta counter |
| Tage.StepCoherent | include/mbp/examples/tage.hpp:153-162 | from any well-formed state, one loop iteration (predict, train when conditional, track) ends well formed with the saved values coherent, because track marks them stale |
| Tage.SimulationCoherent | src/sim/simulator.cpp:80-93 | from a coherent start such as the constructed predictor, every state the simulation loop reaches is coherent, so every predict the loop makes returns the fresh prediction |
| Tage.InitHolds | include/mbp/examples/tage.hpp:53-81 | the constructed predictor's buffer and folds describe the empty history |
| Tage.TrackHolds | include/mbp/examples/tage.hpp:153-162 | tracking extends the history the buffer and folds describe by the outcome |
| Tage.HashesAreWindowFolds | include/mbp/examples/tage.hpp:83-90 | table i is indexed by the address without its two low bits, folded, XOR the fold of the newest ghistLen[i] outcomes, and tagged likewise at the tag width |
| Tage.PredictKeepsPredictions | include/mbp/sim/predictor.hpp:19-28 | although predict saves its work, on a coherent state it changes no later prediction |
| Batage.Lens | include/mbp/examples/batage.hpp:86 | each table's history length is the one its specification gives |
| Batage.IdxWidths | include/mbp/examples/batage.hpp:87 | each table's index width is the one its specification gives |
| Batage.TagWidths | include/mbp/examples/batage.hpp:88 | each table's tag width is the one its specification gives |
| Batage.RingSize | include/mbp/examples/batage.hpp:91-93 | the history buffer is longer than every table's window |
| Batage.NewTables | include/mbp/examples/batage.hpp:85 | each table has 2^idxWidth entries with tag 0 and a zero dual counter |
| Batage.Init | include/mbp/examples/batage.hpp:62-94 | the constructed predictor is well formed, with every entry zero, cat 0 and an unused random engine |
| Batage.InitAsWritten | include/mbp/examples/batage.hpp:76-82 | the constructor as written saves address 0 with the history marked unchanged and no entries selected |
| Batage.ColdStartAsWritten | include/mbp/examples/batage.hpp:106 | as written, a first predict of address 0 returns the saved prediction without computing the entries that train then reads |
| Batage.ColdStart | include/mbp/examples/batage.hpp:105-110 | with the saved values marked unusable, the first predict computes its entries for every address |
| Batage.Choose | include/mbp/examples/batage.hpp:111-122 | the provider is the base table or a hitting table with a non-zero lean, at least as confident as the base table and every such candidate and more confident than every candidate after it; the prediction is its lean |
| Batage.ChooseUnique | include/mbp/examples/batage.hpp:111-122 | those properties determine the provider: any table that has them is the one the loop picks |
| Batage.Indices | include/mbp/examples/batage.hpp:98-99 | every table's index lies inside that table |
| Batage.Tags | include/mbp/examples/batage.hpp:100-101 | every table's tag fits its tag width |
| Batage.Fresh | include/mbp/examples/batage.hpp:105-124 | a fresh computation uses the computed indices and tags and the provider the loop chooses |
| Batage.Predict | include/mbp/examples/batage.hpp:105-124 | predict changes no table, history, cat or random engine; a repeated address with nothing tracked in between returns the saved answer, and otherwise the selection is recomputed |
| Batage.PredictTwice | include/mbp/examples/batage.hpp:106 | a second predict of the same address changes nothing and returns the same answer |
| Batage.PredictIsFresh | include/mbp/examples/batage.hpp:105-124 | on a coherent state predict returns the fresh prediction and leaves a coherent state |
| Batage.UpdateEntry | include/mbp/examples/batage.hpp:135 | updating an entry keeps its tag and counter width |
| Batage.DecayEntry | include/mbp/examples/batage.hpp:152 | decaying an entry keeps its tag and counter width |
| Batage.SetEntry | include/mbp/examples/batage.hpp:178-179 | writing a valid entry keeps every table valid |
| Batage.Hits | include/mbp/examples/batage.hpp:133 | a table hits when its indexed entry carries the tag computed for it |
| Batage.LastHitIn | include/mbp/examples/batage.hpp:131-137 | the scan ends at the last hitting table above its floor, or at the floor |
| Batage.UpdateAbove | include/mbp/examples/batage.hpp:132-137 | every hitting entry above the provider is updated toward the outcome and nothing else changes |
| Batage.UpdateProviders | include/mbp/examples/batage.hpp:146-160 | the provider decays or updates, the alternate updates when the provider was tagged and not highly confident, and nothing else changes |
| Batage.ThrottleBound | include/mbp/examples/batage.hpp:166-167 | for cat within its range the product does not overflow a 32-bit int and the threshold is at most MIN_AP - 1, so the top draw always allocates, and with cat 0 every draw does |
| Batage.Draw | include/mbp/examples/batage.hpp:67-69 | a draw lies in the distribution's closed range |
| Batage.Clamp | include/mbp/examples/batage.hpp:182 | cat is clamped to 0 to MAX_CAT and kept when already inside |
| Batage.NewEntry | include/mbp/examples/batage.hpp:178-179 | the allocated entry carries the branch's tag and a counter leaning toward the outcome with confidence level 1 |
| Batage.Indexed | include/mbp/examples/batage.hpp:99 | the designated entries are each table's indexed entry |
| Batage.FirstUnsure | include/mbp/examples/batage.hpp:171-172 | the first table from the start whose entry is not highly confident, or the end |
| Batage.CountModest | include/mbp/examples/batage.hpp:173 | the count of moderately confident entries passed never exceeds the entries passed |
| Batage.MaybeDecay | include/mbp/examples/batage.hpp:174-176 | a random decay keeps the entry's tag and counter width |
| Batage.AllocLoop | include/mbp/examples/batage.hpp:171-185 | the allocation loop keeps cat within its range and never moves the random engine back |
| Batage.AllocLoopPos | include/mbp/examples/batage.hpp:171-176 | the loop draws one value per highly confident entry before the first one that is not |
| Batage.AllocLoopShift | include/mbp/examples/batage.hpp:172-176 | a highly confident entry ahead of a later table does not change what the loop leaves in that later table |
| Batage.AllocLoopFirst | include/mbp/examples/batage.hpp:177-183 | the loop replaces the first entry that is not highly confident and leaves the rest |
| Batage.AllocLoopEntry | include/mbp/examples/batage.hpp:171-185 | each entry from the start on ends up decayed at random when highly confident and before the first unsure one, replaced by the new entry when it is that one, and unchanged after it |
| Batage.AllocLoopCat | include/mbp/examples/batage.hpp:171-185 | cat moves by 3 less 4 per moderately confident entry passed, clamped, when some entry is not highly confident, and stays otherwise |
| Batage.Alt | include/mbp/examples/batage.hpp:138-145 | the alternate is the last hitting table below the provider, or the base table |
| Batage.LastHit | include/mbp/examples/batage.hpp:131-137 | lastHit is the last hitting table above the provider, or the provider |
| Batage.Updated | include/mbp/examples/batage.hpp:129-160 | hitting entries above the provider update, the provider decays or updates, the alternate updates when the provider was tagged and not highly confident, and nothing else changes |
| Batage.AllocStart | include/mbp/examples/batage.hpp:169-171 | the allocation loop starts past the last hit |
| Batage.WriteBack | include/mbp/examples/batage.hpp:99 | writing the designated entries back changes only the indexed entries |
| Batage.Allocated | include/mbp/examples/batage.hpp:171-185 | the entries before the loop's start are kept and each one from it on is what the loop leaves there |
| Batage.AllocatedValid | include/mbp/examples/batage.hpp:178-179 | the entries the loop leaves fit their tables |
| Batage.Allocate | include/mbp/examples/batage.hpp:169-185 | allocation keeps the tables valid and cat in range, and never moves the random engine back |
| Batage.TrainTables | include/mbp/examples/batage.hpp:129-185 | the trained tables stay valid and cat stays in range |
| Batage.AllocateFrame | include/mbp/examples/batage.hpp:171 | allocation leaves every table before its start as it was |
| Batage.TrainTablesFrame | include/mbp/examples/batage.hpp:169-171 | allocation leaves every table up to the last hit as the updates left it |
| Batage.Train | include/mbp/examples/batage.hpp:126-186 | train first makes the prediction for the branch's address, then its tables, cat and random engine become what the update and allocation give for that selection, and the history and folds stay as they were |
| Batage.CorrectPredictionKeepsCat | include/mbp/examples/batage.hpp:165 | a correct prediction draws no random value, keeps cat, and only updates |
| Batage.Throttled | include/mbp/examples/batage.hpp:166-171 | a misprediction with a draw below the threshold draws once, keeps cat and allocates nothing, and one with the top draw draws a skip and runs the allocation loop from past the last hit |
| Batage.TrainUpdatesHits | include/mbp/examples/batage.hpp:129-145 | training never touches a table below the provider other than the alternate, and every hitting entry above the provider is updated toward the outcome |
| Batage.TrainProvider | include/mbp/examples/batage.hpp:146-160 | the provider decays when it and a correct alternate were both highly confident and updates otherwise, and the alternate updates when the provider was tagged and not highly confident |
| Batage.TrainUsesFresh | include/mbp/examples/batage.hpp:126-127 | on a coherent state, train works with the fresh prediction's selection |
| Batage.Track | include/mbp/examples/batage.hpp:188-197 | tracking pushes the outcome into the history buffer, marks the saved values stale and changes no table, cat or random engine |
| Batage.StepCoherent | include/mbp/examples/batage.hpp:188-197 | from any well-formed state, one loop iteration (predict, train when conditional, track) ends well formed with the saved values coherent, because track marks them stale |
| Batage.SimulationCoherent | src/sim/simulator.cpp:80-93 | from a coherent start such as the constructed predictor, every state the simulation loop reaches is coherent, so every predict the loop makes returns the fresh prediction |
| Batage.InitHolds | include/mbp/examples/batage.hpp:62-94 | the constructed predictor's buffer and folds describe the empty history |
| Batage.TrackHolds | include/mbp/examples/batage.hpp:188-197 | tracking extends the history the buffer and folds describe by the outcome |
| Batage.HashesAreWindowFolds | include/mbp/examples/batage.hpp:96-103 | table i is indexed by the address without its two low bits, folded, XOR the fold of the newest ghistLen[i] outcomes, and tagged likewise at the tag width |
| Batage.PredictKeepsPredictions | include/mbp/sim/predictor.hpp:19-28 | although predict saves its work, on a coherent state it changes no later prediction |

## Left out

- Process and file plumbing: `popen`/`pclose`/`fopen`, the writer's move constructor and its destructor's best-effort removal of the file (src/sim/sbbt_writer.cpp:44-74), the decompress, recompress and rename path that writes a deferred header (src/sim/sbbt_writer.cpp:170-229), and the reader's move constructor and destructor. The byte sink and the byte source are abstract: a `Sink` says how many words each write call accepts, and a sequence of `Chunk`s says what each `fread` returns.
- `errno` and `strerror` messages: errors are the `Err` case of `Result`, with no text.
- Argument parsing in src/sim/simulator.cpp (`strtoll`, `errno`, `exit`): only the stop point that parsing computes is modelled, from the warm-up and simulation lengths.
- Timing with `std::chrono`, the JSON report, and every `metadata_stats`, `execution_stats` and `clear_execution_stats`: they only report or reset statistics and never feed back into a prediction.
- The floating-point MPKI and accuracy figures: the model computes their integer numerators and denominators.
- The hashed perceptron's history lengths come from a floating-point series (`pow`); the model takes the ring size and the lengths as parameters.
- The `mt19937` engine and the way `uniform_int_distribution` maps engine output to a range, which may consume several outputs per draw: each draw is a parameter value `draws(n)` reduced modulo the range's size.
- `BimodalArray(n, val)`: it broadcasts `val` into a variable that is then dropped, and it sizes the vector differently from `BimodalArray(n)`.
- include/mbp/examples/tage_sc_l_cbp5.hpp wraps functions from a library that is not part of this model.
- Printers and command-line tools (`sbbt_cat`, `sbbt_inspect`, the tracer) and the example mains and parameter tables.
- Every predictor is assumed to live in static storage, as the example driver's `static auto branchPredictor` (example/src/main.cpp:7) does, so its counter arrays start at zero. `SatCtr`'s defaulted constructor leaves the value indeterminate in any other object, so an automatic or heap-allocated predictor would start from indeterminate counters. This covers the bimodal table, the gshare table, the two-level pattern table `phr`, the tournament chooser tables, the four 2bc-gskew tables, the perceptron's `component` weights and TAGE's `meta` counters, which the constructor's initialiser list omits.
- Values the source leaves uninitialised in the trace reader are modelled as 0: its buffer positions and instruction counter. The perceptron's history buffer and index are modelled as 0 in the same way.
- Batage.Init: sets updatedGhist to true, as TAGE's constructor does, where the BATAGE constructor as written sets it to false; the as-written constructor is `Batage.InitAsWritten`, and the Findings table records the difference.
- Simulator.StopAt: requires `warmup + sim` to fit in an `int64_t`; the source adds the two without checking for overflow.
- Simulator.SortByMisses: states a permutation sorted by misses; the order of ties is whatever `std::sort` gives and is not modelled.
- Indexing.RoxFold: requires a width below 32, because at 32 the inner `XorFold` to 64 bits shifts `1ULL` by 64 places, which is undefined.
- Indexing.XorFold: requires a width below 64 for the same reason.
- HashedPerceptron.Adapt: `theta` is an unbounded integer; the source's `int` could only overflow after more than 2^31 trainings.
- SaturatedReg.USatSumOrSub: follows the source's `--`, so it states only that the counter stays in range, that a step up moves by at most one and that a step down clears it.
- TaggedHashes.TagHash: uses the intended shift amount, not the wrapped one (see Findings).

## Findings

| source | as written | input that shows it | evidently intended | confidence | as-written member | corrected member |
|---|---|---|---|---|---|---|
| src/sim/sbbt_writer.cpp:129 | `addBranch` writes the buffer out only when it is exactly full, then appends two words | a failed partial write that leaves an odd number of words (1023) buffered, after which the caller catches the error and adds another branch: the test does not fire and the second word lands past the end of the 1024-word buffer | write the buffer out whenever fewer than two slots are free | low, not executed (needs a caller that continues after the exception) | SbbtWriter.AsWrittenOverflow | SbbtWriter.Store |
| include/mbp/utils/saturated_reg.hpp:86 | `USatCtr::operator--` stores `min(x - 1u, 0u)`, which is always 0 | a 2-bit counter holding 2 becomes 0, not 1 | `max`, so that the counter drops by one and stops at 0 | high, not executed | SaturatedReg.USatDecAsWrittenSkips | SaturatedReg.USatIncThenDec |
| include/mbp/examples/tage.hpp:87 | the tag shift `std::max(tagWidth - idxWidth, 0u)` is computed on unsigned operands, so a tag narrower than the index wraps the subtraction and the maximum never applies | a table with 10 index bits and 7 tag bits shifts a 64-bit address by 4294967293 places, which is undefined; include/mbp/examples/batage.hpp:100 has the same expression | a shift of 0 when the tag is the narrower | high, not executed | TaggedHashes.NarrowTagShift | TaggedHashes.TagShiftAgrees |
| include/mbp/examples/batage.hpp:76-82 | the constructor sets the cached address to 0 and marks the history unchanged, but computes no entries | the first call is `predict(0)`: it takes the cache as valid and uses table entries it never selected; `train` then reads them | mark the cache stale at construction, as include/mbp/examples/tage.hpp:67 does | medium, not executed | Batage.ColdStartAsWritten | Batage.ColdStart |
| src/sim/simulator.cpp:106-116 | the exhausted-trace report and denominator depend on `trace.eof()`, which also holds when the loop stopped at the trace's last record and the read that fetched it already reached the end of the stream | a 16-byte trace whose single record has gap 5, run with warm-up 0 and a simulation count of 1: the record reaches the stop point, yet the run warns that the trace was exhausted, divides by 5 instructions and exits with code 2 | report an exhausted trace only when the loop ran out of trace before the stop point | medium, not executed | Simulator.EofAtStopPoint | Simulator.RanOutBeforeStop |
