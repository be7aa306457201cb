# Ascon: a model of the hardware and software stack, with proofs

This project models the Ascon stack of the repository, the lightweight
cryptography of NIST SP 800-232 in Python, generated Verilog and C, and proves
that every layer computes the same functions. There is one specification and
everything else refines it.

* **Specification.** `BitVectors`, `Permutation`, `Sponge` and `Aead` define the
  permutation, padding, absorbing, squeezing and authenticated encryption of the
  standard (sections 2.1, 3, 4 and 5) on bit strings of any length, the first bit
  being the least-significant bit of the first byte. Bijectivity of the
  permutation, both round trips, and acceptance of exactly the encryptions are
  proved here.
* **Golden model.** `Bytes`, `ParsePad` and `GoldenModel` are the byte-oriented
  Python model with its loops, error cases and in-place edits, proved equal to the
  specification through the byte/bit correspondence. `InitialValues` packs the
  initial values from their parameters and pins every table to them. `AxisBeats` and `AxisAead`
  are its stream packets.
* **Permutation machines.** `IterativePermutation`, `MicrocodedPermutation`,
  `ColumnSerialPermutation`, `BitSerialPermutation` and `PipelinedPermutation` are
  the generator's five clocked machines, each with its latency.
* **Mode machines.** `AeadCore` and `HashCore` are the AEAD and hash state machines
  around an iterative permutation core, for all generator parameters;
  `PermutationCall` is the handshake that both have with that core.
* **Stream and bus.** `AxisEngine`, `SlinkShim`, `SlinkPlane`, `SlinkMmio` and
  `TxQueue` are the stream plane under an adversarial environment, and
  `StreamDriver` its C driver between two word queues; `AxisMmio`,
  `MmioPlane`, `XbusAdapter` and `AccelDriver` are the word-by-word plane, from the
  C driver's arrays through bus cycles down to the core.
* **C code.** `CReference` is the portable implementation on shared arrays and
  `Runtime` the compiler support routines.

Each clocked module is a class whose fields are its registers. Its `Step` is one
rising edge and equals a function `Next` (or `Clock`) of the old registers; lemmas
about whole runs are about that function. Run lemmas follow one pattern: a function
of the registers says what the machine will still deliver, every edge keeps it, and
a second function says how many edges are left and falls by one.

Three findings are theorems with their exact conditions. A generated hash core with
more output words than its state register has codes wraps to idle at the end:
`done_o` is raised if and only if the words fit (`HashCore.DoneExactlyWithinCodes`).
The customized core samples the customization length a second time after the start:
it is on the path of the standard if and only if that input still says the same then
(`HashCore.LengthMustBeHeld`), and otherwise it computes the sponge with the other
length word (`HashCore.CoreComputesSponge`). The C decryption, given one array for
ciphertext and plaintext, encrypts the ciphertext and judges the tag by that
(`CReference.InPlaceEncrypts`), while the encryption may work in place.

The two drivers differ: `AccelDriver.Driver.DecryptRequest` fetches the plaintext only
after a good verdict, `StreamDriver.Driver.Run` stores the text before it looks.

Where comments and code of the repository differ, the code is followed: the 64-bit
division in freestanding_runtime.c is announced as non-restoring and is restoring,
and ascon_accel_benchmark.c says that CLEAR resets the cycle counter while the
register files reset it on START. The busy column of docs/AXI_STREAM_DATA_PLANE.md
agrees with `SlinkPlane.OneRoundJobEdges` when one edge is withheld between
consecutive payload words, and its crypto column with `AeadCore.OneRoundCycles`.

## Model

| member | source | states |
|---|---|---|
| `Permutation.PermutationBijective` | ascon_hwmodel/round.py:20-29 | for every state and every round count up to 16 the permutation has a two-sided inverse |
| `Permutation.PermutationInjective` | ascon_hwmodel/round.py:24-29 | two states with the same image are equal, for every round count |
| `Permutation.PermutationOnto` | ascon_hwmodel/round.py:24-29 | every state is the image of some state, for every round count |
| `Permutation.RoundConstantValue` | ascon_hwmodel/pc.py:6-23 | constant i is, as a number, one nibble counting down over one counting up, 16 * (15 - k) + k for k = (i + 12) mod 16, in the lowest byte of the word |
| `Permutation.PCInvolution` | ascon_hwmodel/pc.py:50-54 | adding a round constant twice gives the state back |
| `Permutation.BitslicedIsTable` | ascon_hwmodel/ps.py:54-71 | the word-wide boolean network substitutes each of the 64 columns by the 32-entry table, on every state |
| `Permutation.PSBijective` | ascon_hwmodel/ps.py:54-71 | the substitution layer and the table read backwards on every column undo each other |
| `Permutation.SigmaSquared` | ascon_hwmodel/pl.py:18-35 | applying a sigma twice is the sigma with both rotations doubled modulo 64 |
| `Permutation.SigmaOrder64` | ascon_hwmodel/pl.py:9-35 | any sigma, whatever its two rotations, applied 64 times is the identity |
| `Permutation.PLBijective` | ascon_hwmodel/pl.py:38-40 | the linear layer and 63 further sigmas on each word undo each other |
| `Permutation.FirstThenRest` | ascon_hwmodel/round.py:24-29 | the first k rounds followed by the remaining suffix of the constant schedule are the whole run, so shorter permutations are suffixes of longer ones |
| `GoldenModel.SubstituteByTable` | ascon_hwmodel/ps.py:33-51 | the loop of 64 table lookups returns exactly what the bitsliced network returns |
| `GoldenModel.ApplyPermutation` | ascon_hwmodel/round.py:24-29 | raises exactly when the count is outside 1..16, otherwise the loop returns the permutation of that many rounds |
| `Bytes.BytesRoundTrip` | ascon_hwmodel/bitstring.py:33-40 | bytes expanded to bits and packed again are the same bytes |
| `Bytes.BitStringsRoundTrip` | ascon_hwmodel/bitstring.py:89-103 | a bit string of whole bytes packed and expanded again is the same bit string |
| `ParsePad.Parse` | ascon_hwmodel/byteops.py:61-73 | raises exactly for a non-positive rate, otherwise full blocks of the rate, a shorter final block, and together the input; the bit-level loop in bitstring.py is the same generic method |
| `ParsePad.ParseUnique` | ascon_hwmodel/bitstring.py:132-142 | there is only one such split of a string |
| `ParsePad.PadLength` | ascon_hwmodel/bitstring.py:145-149 | padding ends exactly one block after the last full one |
| `ParsePad.PadInjective` | ascon_hwmodel/bitstring.py:145-149 | two messages of any lengths with the same padding are equal |
| `ParsePad.PaddedBlocks` | ascon_hwmodel/bitstring.py:132-149 | the full blocks followed by the padded final block spell the padded message |
| `ParsePad.ParseAgrees` | ascon_hwmodel/byteops.py:61-94 | splitting bytes and splitting their bits give the same blocks |
| `ParsePad.PadAgrees` | ascon_hwmodel/byteops.py:76-98 | padding a partial byte block and padding its bits give the same block |
| `Aead.DecryptUndoesEncrypt` | ascon_hwmodel/aead_plaintext.py:16-26 | from any state, decrypting what encryption wrote gives the text back and ends in the same state |
| `Aead.EncryptUndoesDecrypt` | ascon_hwmodel/aead_ciphertext.py:22-37 | from any state, encrypting what decryption wrote gives the ciphertext back and ends in the same state |
| `Aead.RoundTrip` | ascon_hwmodel/aead_decrypt.py:21-44 | for every parameter set, key, nonce, associated data and text, an encryption decrypts to its text and is accepted |
| `Aead.ReEncrypt` | ascon_hwmodel/aead_decrypt.py:21-44 | encrypting whatever decryption returns, accepted or not, gives the ciphertext and the computed tag |
| `Aead.AcceptsExactlyEncryptions` | ascon_hwmodel/aead_decrypt.py:36-44 | a ciphertext and tag are accepted if and only if they are an encryption of some text |
| `Aead.NoncesStayApart` | ascon_hwmodel/aead_init.py:6-33 | under one key, two nonces never lead to the same initialized state |
| `GoldenModel.ProcessAssociatedData` | ascon_hwmodel/aead_ad.py:9-17 | the block loop absorbs the associated data, skips an empty one, and flips the domain bit |
| `GoldenModel.EncryptPlaintext` | ascon_hwmodel/aead_plaintext.py:16-26 | the block loop returns the bit-level encryption of the text and its final state, for rates 8 and 16 |
| `GoldenModel.DecryptCiphertext` | ascon_hwmodel/aead_ciphertext.py:22-37 | the block loop, with its in-place edit of the last rate image, returns the bit-level decryption and its final state |
| `GoldenModel.XorKey` | ascon_hwmodel/aead_init.py:25-33 | the byte loop xors the key into the state image at the given byte and changes nothing else |
| `GoldenModel.InitializeState` | ascon_hwmodel/aead_init.py:6-22 | raises exactly on a wrong key or nonce length, otherwise the keyed initial state |
| `GoldenModel.FinalizeTag` | ascon_hwmodel/aead_final.py:7-33 | sixteen tag bytes equal to the bit-level tag of the state and key |
| `GoldenModel.AeadEncrypt` | ascon_hwmodel/aead_encrypt.py:20-34 | raises exactly on wrong lengths, otherwise ciphertext and tag of the standard, as many bytes as the text |
| `GoldenModel.AeadDecrypt` | ascon_hwmodel/aead_decrypt.py:21-44 | raises exactly on wrong lengths, otherwise text, validity and computed tag of the standard |
| `InitialValues.PackLsf` | ascon_hwmodel/iv.py:50-59 | raises exactly when the widths do not add up to 64, otherwise shifting and or-ing gives the number whose digits are the fields, the first one least significant |
| `InitialValues.Build` | ascon_hwmodel/iv.py:19-28 | the seven fields of every parameter set stand at bits 0, 16, 20, 24 and 40 of the word |
| `InitialValues.AeadIv` | ascon_hwmodel/iv.py:62-70 | the eight bytes of the AEAD configuration are the packed word of its own data rounds, tag bits and rate, the number in the expected-value table and in the C reference |
| `InitialValues.HashIvs` | ascon_hwmodel/iv.py:71-101 | the bytes used by the hash, XOF and customized XOF are the packed words of their parameters, the numbers in the expected-value table |
| `InitialValues.LegacyIvs` | ascon_hwmodel/aead_config.py:72-107 | each submission parameter set announces its key bits, rate, twelve rounds and data rounds in its own initial value, followed by zeros |
| `GoldenModel.AbsorbBytes` | ascon_hwmodel/hash_xof.py:105-111 | the block loop absorbs all bytes and the padded rest, with separate round counts for inner and last blocks |
| `GoldenModel.SqueezeBytes` | ascon_designspace/generator/verify.py:302-307 | the output loop with its own inner round count returns exactly the requested number of squeezed bytes |
| `GoldenModel.Squeeze64` | ascon_hwmodel/hash_xof.py:114-122 | raises exactly for a non-positive length, otherwise exactly that many squeezed bytes with twelve rounds between blocks |
| `GoldenModel.Hash256` | ascon_hwmodel/hash_xof.py:125-129 | the 32-byte digest is the sponge with twelve rounds throughout |
| `GoldenModel.Xof128` | ascon_hwmodel/hash_xof.py:132-136 | raises exactly for a non-positive length, otherwise the sponge output of that length |
| `GoldenModel.Cxof128` | ascon_hwmodel/hash_xof.py:139-150 | raises exactly for a long customization or a non-positive length, otherwise length word, customization and message are absorbed in this order |
| `GoldenModel.HashXofReference` | ascon_designspace/generator/verify.py:284-307 | the reference with its own inner round count is the same sponge, and at twelve rounds the hash and XOF above |
| `Sponge.XofPrefix` | ascon_hwmodel/hash_xof.py:114-136 | asking for more output never changes the output already produced |
| `IterativePermutation.Core.Step` | ascon_designspace/generator/permutation.py:85-120 | one clock edge of the iterative core |
| `IterativePermutation.IterativeComputesPermutation` | ascon_designspace/generator/permutation.py:40-119 | for every R in 1..12 the guarded machine returns p6, p8 or p12 after exactly the rounded-up number of round cycles, and is not valid before, even when R does not divide the count |
| `Counters.StepsToIsCeiling` | ascon_designspace/generator/permutation.py:103-116 | the number of cycles of a stride counter is the distance divided by the stride, rounded up |
| `MicrocodedPermutation.Core.Step` | ascon_designspace/generator/control.py:64-99 | one clock edge of the sequencer |
| `MicrocodedPermutation.MicrocodeComputesPermutation` | ascon_designspace/generator/control.py:40-98 | entered at 6, 4 or 0 the shared program computes p6, p8 or p12 |
| `ColumnSerialPermutation.Core.Step` | ascon_designspace/generator/serial.py:96-148 | one clock edge of the column-serial machine |
| `ColumnSerialPermutation.ColumnSerialComputesPermutation` | ascon_designspace/generator/serial.py:31-147 | for every K in 1, 2, 4, 8, 16, 32 the machine returns p6, p8 or p12 after exactly 2 + 64/K cycles per round, without overflowing its column counter |
| `BitSerialPermutation.Core.Step` | ascon_designspace/generator/serial.py:212-271 | one clock edge of the bit-serial machine |
| `BitSerialPermutation.SboxStep` | ascon_designspace/generator/serial.py:239-249 | substituting one more column keeps what the registers will deliver |
| `BitSerialPermutation.LinearStep` | ascon_designspace/generator/serial.py:250-254 | computing one more bit of the five words keeps what the registers will deliver while s is preserved |
| `BitSerialPermutation.BitSerialComputesPermutation` | ascon_designspace/generator/serial.py:212-270 | the machine returns p6, p8 or p12 after exactly 130 cycles per round |
| `PipelinedPermutation.Pipeline.Step` | ascon_designspace/generator/structural.py:58-78 | one clock edge of the data and context pipelines |
| `PipelinedPermutation.PipelineDelays` | ascon_designspace/generator/structural.py:58-78 | for every input stream with bubbles, the output is valid exactly when the input N cycles earlier was, with that input's context and p[N] of its state |
| `PipelinedPermutation.BusesDelay` | ascon_designspace/generator/structural.py:165-191 | on the flattened buses of M lanes, slice g of valid_o, ctx_o and state_o is slice g of the inputs N edges earlier with the state permuted, whatever the other lanes carry, and not valid before |
| `PermutationCall.Waits` | ascon_designspace/generator/aead.py:160-164 | while a mode machine waits, every edge keeps the state that the permutation core will return and brings it one edge nearer |
| `AeadCore.Core.Step` | ascon_designspace/generator/aead.py:136-226 | one clock edge of the parameterised AEAD machine and its permutation core |
| `AeadCore.BusyStep` | ascon_designspace/generator/aead.py:143-224 | every edge of a run, in every control state, keeps the result that the registers will deliver and uses up one of the edges left; the last one delivers it |
| `Wires.PaddedIsPad` | ascon_designspace/generator/aead.py:118-126 | mask and pad bit built from an 8-bit remainder turn a buffer block into the padded block of the standard |
| `AeadCore.PartialDecrypt` | ascon_designspace/generator/aead.py:128-132 | the masked new rate of a partial decryption block is the one of the standard |
| `AeadCore.CoreComputesAead` | ascon_designspace/generator/aead.py:89-226 | for every variant, key, nonce and lengths up to the buffers and 255 bytes, with the held inputs unchanged, a start from idle reaches done after exactly CoreCycles edges and not before, with the output bytes, tag and validity of the standard |
| `AeadCore.OneRoundCycles` | ascon_designspace/generator/aead.py:143-224 | with one round per cycle that number is 36 + (if AD > 0: (d+4)*floor(AD/rate) + d+3) + (d+4)*floor(MSG/rate) |
| `HashCore.Core.Step` | ascon_designspace/generator/hash256.py:75-118 | one clock edge of the hash, XOF or customized XOF machine |
| `HashCore.BusyStep` | ascon_designspace/generator/hash256.py:86-115 | every edge of a run keeps the digest that the registers will deliver and uses up one of the edges left |
| `HashCore.LengthBits` | ascon_designspace/generator/hash256.py:210-211 | the wired length word is the 64-bit little-endian bit length of the customization |
| `HashCore.CoreComputesSponge` | ascon_designspace/generator/hash256.py:45-135 | for every message and customization up to the bounds and at most 11 output words (23 when customized), done after exactly CoreCycles edges and not before, with the sponge output, where the length word is the one that the length input gives at LengthEdge, whatever the input does on all other edges after the start |
| `HashCore.LengthSampledAgain` | ascon_designspace/generator/hash256.py:222-252 | from every state that is about to absorb the length word, the sponge state becomes the one of the standard if and only if the length input still equals the latched length |
| `HashCore.LengthMustBeHeld` | ascon_designspace/generator/hash256.py:222-252 | for every customized job from rest and every behaviour of the inputs, the machine is on the path of the standard after LengthEdge if and only if the length input at that edge is that of the start |
| `HashCore.TooManyWordsNeverDone` | ascon_designspace/generator/hash256.py:29-49 | with more output words than the state register has codes, the last output state is unreachable: from reset on done is never raised, whatever the inputs |
| `HashCore.DoneExactlyWithinCodes` | ascon_designspace/generator/hash256.py:29-49 | from rest, a job with its buffers held is done after CoreCycles edges if and only if the output words number at most 11 (23 when customized) |
| `AxisEngine.Engine.Step` | rtl/generated/accel/ascon_aead128_axis.v:77-126 | one clock edge of the stream engine and the AEAD core |
| `SlinkShim.Shim.Step` | rtl/soc/ascon_slink_shim.v:89-164 | one clock edge of the shim |
| `SlinkPlane.PlaneStep` | rtl/soc/ascon_slink_shim.v:89-163 | under any word source and any sink every edge keeps shim and engine in lockstep, the buffers equal to the words taken, the job's result, the bytes sent and the edge count |
| `SlinkPlane.StreamComputesAead` | rtl/generated/accel/ascon_aead128_axis.v:66-127 | over every schedule of words, stalls and polite starts, done means that exactly ceil(AD/4)+ceil(MSG/4) words were taken, the beats carry the core's first MSG bytes in order with last on the last one only, and tag and validity are those of the standard |
| `SlinkPlane.JobFinishes` | rtl/generated/accel/ascon_aead128_axis.v:83-124 | once the edges since the start exceed the edges on which the environment withheld something by a fixed number, the job is over |
| `SlinkPlane.BusyIsBounded` | rtl/generated/accel/ascon_aead128_axis.v:83-124 | a job is never older than its withheld edges plus that number |
| `SlinkPlane.OneRoundJobEdges` | docs/AXI_STREAM_DATA_PLANE.md:57-64 | the closed form of that number for the one-round core, in the two lengths |
| `SlinkPlane.FifoDepthDecides` | rtl/soc/ascon_aead128_slink_mmio.v:117-124 | with results drained only after done, a job gets done if and only if the result queue holds ceil(MSG/4) words |
| `TxQueue.DepthDecides` | firmware/ascon_slink/ascon_slink.c:24-29 | a queue that loses writes when full keeps every payload word in order, under every interleaving of writes and reads, if and only if it is as deep as the payload |
| `TxQueue.PayloadArrives` | firmware/ascon_slink/ascon_slink.c:24-29 | with that depth, after every interleaving of writes and reads and enough further reads the reader has the whole payload in order and nothing is left |
| `SlinkMmio.Registers.Step` | rtl/soc/ascon_aead128_slink_mmio.v:85-198 | one clock edge of the register file, the shim and the engine |
| `SlinkMmio.Step` | rtl/soc/ascon_aead128_slink_mmio.v:150-198 | every cycle of a polite driver keeps busy, counter, pulse and flags consistent with the plane |
| `SlinkMmio.PeripheralReportsAead` | rtl/soc/ascon_aead128_slink_mmio.v:150-198 | over every run of a polite driver, DONE means tag, flags and error code of the standard, all result bytes sent, and a cycle count equal to the job's fixed cost plus the cycles withheld, modulo 2^64 |
| `SlinkMmio.DoneOnTime` | rtl/soc/ascon_aead128_slink_mmio.v:150-198 | from every reachable state, after a START with CONTROL left alone since, DONE is set if and only if the cycles are at least the withheld ones plus the fixed cost of the job and two, and then it reports the job that START described |
| `SlinkMmio.RegistersTell` | rtl/soc/ascon_aead128_slink_mmio.v:126-148 | in the setting of DoneOnTime, on the bus: STATUS shows DONE from exactly that cycle on and BUSY exactly until then; with DONE, TAGVALID is the verdict of the standard, ERR its opposite, the tag registers hold the tag, the cycle registers the fixed cost plus the withheld cycles modulo 2^64, and the error register 4 or 0 |
| `SlinkMmio.WriteReadsBack` | rtl/soc/ascon_aead128_slink_mmio.v:126-181 | a write to any address but CONTROL is read back from its own address, where there is anything to read back, and changes what no other address reads |
| `SlinkMmio.ConstantsRead` | rtl/soc/ascon_aead128_slink_mmio.v:69-72 | the capability register shows bits 0, 21, 22 and 23, and the interface version is 1 |
| `SlinkMmio.StreamsMove` | rtl/soc/ascon_aead128_slink_mmio.v:90-124 | in every cycle a word is taken exactly when one is awaited and offered, a beat sent exactly when one is driven and taken, and a cycle withheld exactly when the other side is missing |
| `SlinkMmio.TagReadsBack` | rtl/soc/ascon_aead128_slink_mmio.v:139-140 | the four tag registers read back the whole tag |
| `StreamDriver.Pack` | firmware/ascon_slink/ascon_slink.c:143-150 | the words appended to the buffer are those of the bytes, four to a word, the last one padded with zeros |
| `StreamDriver.PayloadTexts` | rtl/soc/ascon_slink_shim.v:89-163 | the words of the associated data followed by those of the text are exactly what the peripheral takes, and it computes the standard on those bytes |
| `StreamDriver.ReceivedPayload` | rtl/generated/accel/ascon_aead128_axis.v:66-73 | the full received words carry the marked bytes of the beats, with none missing in between |
| `StreamDriver.Unpack` | firmware/ascon_slink/ascon_slink.c:189-195 | the array gets exactly the received bytes and nothing after them changes |
| `StreamDriver.Driver.Configure` | firmware/ascon_slink/ascon_slink.c:155-168 | the writes leave mode 0, key, nonce, lengths and, for decryption, the expected tag in the registers |
| `StreamDriver.Driver.WaitDone` | firmware/ascon_slink/ascon_slink.c:179-184 | ends with DONE, or with a budget that the fixed cost and the withheld cycles of the job reach |
| `StreamDriver.Driver.Run` | firmware/ascon_slink/ascon_slink.c:131-209 | through driver, registers, shim, engine and core, under every behaviour of the two queues: bad lengths and missing hardware are refused exactly when due; encryption gives text and tag of the standard; decryption gives the verdict of the standard and, whatever the verdict, the text; never a hardware error; with working transfers a timeout only within the fixed cost and the withheld cycles; arrays untouched otherwise |
| `AxisMmio.Registers.Step` | rtl/generated/accel/ascon_aead128_axis_mmio.v:44-152 | one clock edge of the register file and the engine, the bus winning over the engine |
| `AxisMmio.StatusBits` | rtl/generated/accel/ascon_aead128_axis_mmio.v:75-76 | STATUS shows busy, done, the verdict, the error, whether a beat is accepted and whether there is output, each at its bit |
| `AxisMmio.WriteReadsBack` | rtl/generated/accel/ascon_aead128_axis_mmio.v:73-136 | a write to any address but CONTROL is read back from its own address, where there is anything to read back, and changes what no other address reads, except that the text length frames the output |
| `AxisMmio.ConstantsRead` | rtl/generated/accel/ascon_aead128_axis_mmio.v:29-30 | the capability register shows bits 0, 21 and 22, and the interface version is 1 |
| `AxisMmio.OutputFraming` | rtl/generated/accel/ascon_aead128_axis_mmio.v:66-72 | DATA_OUT_CTRL marks exactly the bytes of the next word that belong to the result, and exactly the final word as last |
| `MmioPlane.SettledStep` | rtl/generated/accel/ascon_aead128_axis_mmio.v:107-151 | with no job under way a cycle does exactly what the bus asks for and nothing else |
| `MmioPlane.FillingAd` | rtl/generated/accel/ascon_aead128_axis_mmio.v:43-49 | a control write with the kind bit clear appends the masked bytes of the data register to the associated data |
| `MmioPlane.FillingText` | rtl/generated/accel/ascon_aead128_axis_mmio.v:43-49 | a control write with the kind bit set and no last flag appends them to the message |
| `MmioPlane.RunningStarts` | rtl/generated/accel/ascon_aead128_axis_mmio.v:43-49 | the last message beat starts the engine on exactly the bytes written |
| `MmioPlane.CapturedBeat` | rtl/generated/accel/ascon_aead128_axis_mmio.v:118-124 | a captured beat extends the output buffer by exactly the bytes its mask marks |
| `MmioPlane.ProgressStep` | rtl/generated/accel/ascon_aead128_axis_mmio.v:107-151 | a cycle that writes nothing brings a running job one edge closer to DONE, and leaves a finished one alone |
| `MmioPlane.RunningEnds` | rtl/generated/accel/ascon_aead128_axis_mmio.v:111-116 | the done pulse leaves tag, flags, error code and output buffer as the standard says |
| `XbusAdapter.Adapter.Step` | rtl/soc/ascon_aead128_wb.v:35-51 | one clock edge of the adapter and the peripheral, with acknowledge and read data |
| `XbusAdapter.NoStrobeNoAccess` | rtl/soc/ascon_aead128_wb.v:34-40 | over every run of pins without strobe and bus cycle together nothing is acknowledged and the peripheral sees no access |
| `XbusAdapter.Adapter.Transact` | rtl/soc/ascon_aead128_wb.v:30-51 | a processor that strobes for one cycle after any wait and holds its request until the acknowledge gets exactly one completed access, with the data of the completing cycle |
| `AccelDriver.Driver.WriteWords` | firmware/ascon_accel/ascon_accel_control.c:111-137 | sixteen bytes reach the 128-bit register in little-endian order and nothing else changes |
| `AccelDriver.PackWord` | firmware/ascon_accel/ascon_accel_mmio_data.c:10-18 | the word holds the next up to four bytes in order and the mask marks exactly those |
| `AccelDriver.Driver.StreamBytes` | firmware/ascon_accel/ascon_accel_mmio_data.c:3-30 | all payload bytes, an empty payload included, end up in the engine's buffer, and the text's last beat starts the run |
| `AccelDriver.Driver.WaitDone` | firmware/ascon_accel/ascon_accel_control.c:46-58 | OK only when the job is finished; a budget of more than half the remaining edges is always enough |
| `AccelDriver.OverdueRests` | firmware/ascon_accel/ascon_accel_control.c:46-58 | a job that the driver has given up after a timeout still ends: the device is without a job once the edges that were left have passed idle |
| `AccelDriver.Driver.ReadBytes` | firmware/ascon_accel/ascon_accel_mmio_data.c:32-41 | the output array gets exactly the result bytes, and nothing after them changes |
| `AccelDriver.Driver.ReadTag` | firmware/ascon_accel/ascon_accel_control.c:125-130 | the tag array gets the sixteen tag bytes |
| `AccelDriver.Driver.EncryptRequest` | firmware/ascon_accel/ascon_accel.c:37-85 | through driver, adapter, registers, engine and core: accepted exactly when key, nonce and output are given and a missing array has length 0, with a mode error exactly for the others; ciphertext and tag of the standard for all lengths up to 32; a timeout only if twice the polling budget is within the closed-form edge count of the run, after which the device is ready again within RequestEdges idle cycles; arrays untouched on any error |
| `AccelDriver.Driver.DecryptRequest` | firmware/ascon_accel/ascon_accel.c:87-131 | accepted exactly when encryption is; the plaintext exactly when the standard accepts, otherwise an invalid tag with the output of the caller untouched |
| `CReference.Load64` | firmware/ascon_ref/ascon_ref_aead128.c:17-23 | the or-shift loop loads eight bytes little-endian |
| `CReference.Store64` | firmware/ascon_ref/ascon_ref_aead128.c:25-29 | the loop stores the word's bytes little-endian and changes no other byte |
| `CReference.AsconState.Permute` | firmware/ascon_ref/ascon_ref_aead128.c:45-83 | the three steps on five words in place are the permutation |
| `CReference.MakePaddedBlock` | firmware/ascon_ref/ascon_ref_aead128.c:100-109 | the block is the padded partial block, also when it is empty and the pointer null |
| `CReference.ProcessAssociated` | firmware/ascon_ref/ascon_ref_aead128.c:144-158 | the block loop over the array absorbs the associated data |
| `CReference.ConstantTimeEqual` | firmware/ascon_ref/ascon_ref_aead128.c:170-176 | the collected difference is zero exactly when the sixteen bytes agree |
| `CReference.EncryptTextInto` | firmware/ascon_ref/ascon_ref_aead128.c:199-212 | also when source and destination are one array, the destination holds the encryption of the original text and nothing behind it changes |
| `CReference.Encrypt128` | firmware/ascon_ref/ascon_ref_aead128.c:178-216 | status 0 exactly when key, nonce, ciphertext and tag are given and a missing text or associated data has length 0, otherwise -1 with nothing written; for every length and whichever arrays are shared, the two whole arrays that EncryptOutcome gives; ciphertext and tag of the standard unless the ciphertext array is also the key or the tag array |
| `CReference.SeparateArraysEncrypt` | firmware/ascon_ref/ascon_ref_aead128.c:178-216 | EncryptOutcome is the encryption of the standard, with nothing else changed, when the ciphertext array is neither key nor tag |
| `CReference.DecryptTextInto` | firmware/ascon_ref/ascon_ref_aead128.c:239-261 | the destination holds the decryption of the text, or in one shared array its encryption, and nothing behind it changes |
| `CReference.Decrypt128` | firmware/ascon_ref/ascon_ref_aead128.c:218-267 | status 0 exactly when key, nonce, plaintext, tag and flag are given and a missing text or associated data has length 0, otherwise -1 with nothing written; for every length and whichever arrays are shared, the flag and the whole array that DecryptOutcome gives; with a plaintext array of its own the validity of the standard and its plaintext or all zeros |
| `CReference.SeparateArraysDecrypt` | firmware/ascon_ref/ascon_ref_aead128.c:218-267 | DecryptOutcome is the decryption of the standard, with zeros for a rejected text, when the plaintext array is not shared |
| `CReference.InPlaceEncrypts` | firmware/ascon_ref/ascon_ref_aead128.c:242-261 | with ciphertext and plaintext in one array the input is accepted if and only if the tag is that of encrypting the ciphertext, and the array then holds that encryption, otherwise zeros |
| `AxisBeats.CountValid` | ascon_hwmodel/aead_stream.py:90-105 | accepts exactly the contiguous masks and returns their count |
| `AxisBeats.Pack` | ascon_hwmodel/aead_stream.py:108-129 | raises exactly for a bus outside 1..64, otherwise full beats and one beat with the rest |
| `AxisBeats.Unpack` | ascon_hwmodel/aead_stream.py:132-174 | accepts exactly the well-framed packets of the expected kind and length, and returns their payload |
| `AxisBeats.PackThenUnpack` | ascon_hwmodel/aead_stream.py:108-174 | every packed byte string is accepted and unpacks to itself |
| `AxisBeats.UnpackThenPack` | ascon_hwmodel/aead_stream.py:108-174 | an accepted packet and the packet of its bytes agree in beat count, masks, last flags, kinds and payloads |
| `AxisAead.AxisEncrypt` | ascon_hwmodel/aead_stream.py:177-198 | succeeds exactly on well-framed packets and good lengths, with ciphertext and tag of the standard and the ciphertext packet |
| `AxisAead.AxisDecrypt` | ascon_hwmodel/aead_stream.py:201-229 | succeeds exactly on well-framed packets and good lengths; a rejected tag releases no plaintext byte and no beat |
| `AxisAead.RoundTripPackets` | tests/test_aead_stream_model.py:75-93 | the packets of an encryption decrypt to the plaintext packet |
| `Runtime.DivMod` | firmware/ascon_demo/freestanding_runtime.c:125-145 | for every width, num = q * den + r with r < den, and all ones with the numerator for a zero divisor |
| `Runtime.RemainderFits` | firmware/ascon_demo/freestanding_runtime.c:240-241 | the remainder is at most the numerator bits consumed, so the shift never loses a one |
| `Runtime.SignedDivMod` | firmware/ascon_demo/freestanding_runtime.c:157-184 | the quotient truncated towards zero with its remainder, exactly unless the most negative number is divided by -1, where it wraps; and the value for a zero divisor |
| `Runtime.Multiply32` | firmware/ascon_demo/freestanding_runtime.c:194-203 | shift and add gives the exact 64-bit product |
| `Runtime.Multiply64` | firmware/ascon_demo/freestanding_runtime.c:205-221 | the three half products give the product modulo 2^64 |
| `Runtime.ShiftsScale` | firmware/ascon_demo/freestanding_runtime.c:89-123 | on two halves, a left shift multiplies modulo 2^64 and a logical right shift divides rounding down |
| `Runtime.ArithmeticShiftScales` | firmware/ascon_demo/freestanding_runtime.c:291-306 | on two halves, the arithmetic right shift divides the signed value rounding down |
| `Runtime.CountLeadingZeros32` | firmware/ascon_demo/freestanding_runtime.c:277-282 | the count of clear bits above the highest set bit, 32 for zero |
| `Runtime.CountLeadingZeros64` | firmware/ascon_demo/freestanding_runtime.c:284-288 | the same on 64 bits |
| `Runtime.MoveBytes` | firmware/ascon_demo/freestanding_runtime.c:21-37 | the destination holds the old source bytes for every overlap and no other byte changes |
| `Runtime.CompareBytes` | firmware/ascon_demo/freestanding_runtime.c:39-48 | zero exactly for equal arrays, otherwise the difference of the first differing bytes |

## Left out

- Verilog text, testbenches and generation: the emitted machines are modelled, not the strings that describe them.
- Four-state logic and asynchronous reset: a part select beyond a vector reads as zero instead of unknown, and runs start from any state that reset can lead to.
- The processor, its DMA and its stream FIFOs: only their contract appears, as arbitrary schedules of words, stalls, strobes and waits, and as the bounded queues of `SlinkPlane.FifoDepthDecides` and `TxQueue.DepthDecides`.
- Starting or clearing the stream peripheral while it is busy: the driver never does, and `SlinkMmio.Polite` excludes it.
- Input lengths above 32 bytes on the two peripherals: the engine's buffers are fixed at 256 bits; the AEAD and hash cores are parametric.
- AxisMmio.Registers.Step: the registers that both peripherals share are one datatype-valued field, and no theorem says what the cycle counter of a word-by-word job shows, which depends on the pace of the driver.
- StreamDriver.Driver.Run: bus accesses take one cycle, since the adapter of the stream peripheral is that of `XbusAdapter`; the DMA engine and the queues appear only as words that are offered and taken at any time; the count of busy cycles is not stored; the null device and null request checks do not exist for Dafny objects.
- AccelDriver.Driver.EncryptRequest: lengths are at most 32 bytes, the size of the buffers that rtl/generated/accel/ascon_aead128_axis.v fixes, which the C code does not check; the device is at rest, as it is after reset, after every request that did not time out, and `RequestEdges` idle cycles after one that did; the null device and null request checks do not exist for Dafny objects, and the external stream transport is not part of this model.
- AccelDriver.Driver.DecryptRequest: as for encryption.
- AccelDriver.Driver.WaitDone: the early return on an error flag without DONE is a branch that this hardware never takes.
- Driver hash modes: no register file implements them.
- CReference.Encrypt128: arrays that overlap only in part are not expressible; sharing means that two arguments are one array.
- CReference.Decrypt128: as for encryption.
- Runtime.SignedDivMod: negation of the most negative number is undefined in C and is modelled as wrapping.
- The permutation trace: it repeats the permutation loop and records its states.
- Copies of freestanding_runtime.c, strlen, abort and the character table: duplicates or trivial.
- Board files, scripts, UART demonstrations, benchmarks and reports: input and output.
- Security of the algorithms, side channels and known-answer vectors: the theorems are about all inputs of the functions as defined.
