# NIGHTRUN, verified core

NIGHTRUN runs a language model on bare metal. Most of what its code promises has one
form: a fast, batched or streaming path gives the result of a simple one. This Dafny
project models the code that makes those promises and proves them for all inputs, all
runs or all reachable states. `dafny verify dfyconfig.toml` checks everything.

## What is modelled

* **Prefill and decode** (`Numbers`, `Kernels`, `Activations`, `RowOps`, `Forward`,
  `Interchange`, `Infer`, `FlatForward`, `Overlap`, `Worked`, `Gated`). Floats are bit
  patterns and the vector routines arbitrary deterministic functions, so every
  equality is bit equality. `Forward` gives the token-major and the layer-major
  computation as functions of a cache seen as rows; `Interchange` proves them equal by
  exchanging the loops; `Infer` is the context object over flat buffers, proved
  against both. `FlatForward` states both runs on the flat cache for any head counts,
  and `Overlap` says for which counts they agree. What a layer computes is pinned by
  `Worked`, on all models of one number a head, with logits written out, and by
  `Gated`, which tells the gate from the factor.
* **The spin-worker pool** (`Pool`, `PoolProgress`, `PoolSurplus`, `PoolProducts`).
  One main thread and any number of workers, one atomic access per step; a schedule
  picks the next thread and every theorem is about all schedules. Two conditions the
  code does not check turn out to be exact: the workers that spin must be exactly
  those activated (`PoolSurplus.SafeIffExact`), and each must have read `seq` once
  when the first job is posted (`PoolProgress.WholeRun`; later jobs need nothing
  more). The comment beside the dereference (parallel.rs, lines 64-65) holds only
  under the first.
* **Checksums** (`Crc`, `Masks`, `Wire`). The bitwise CRC-32 of section 3.2.9 of IEEE
  802.3, the slicing tables, the streaming hasher, the mask form, burst detection and
  the published check value.
* **The model file** (`Format`, `Gates`, `Verify`, `Converter`, `Damage`). Parser,
  streaming verifier, loader and writer, each with an independent one-shot
  specification, which damage to an accepted file goes unnoticed, and what the gates
  on bit patterns mean in numbers.
* **The tokenizer** (`Unicode`, `Regex`, `Pretok`, `Blob`, `Build`, `Template`,
  `Rendering`, `Flush`). The hand-written splitter against a backtracking matcher,
  byte-pair encoding against its reference, the blob builder against the parser, chat
  templates and the text their tokens spell, and incremental UTF-8 (section 3 of RFC
  3629).
* **NRMP** (`Nrmp`, `Reassembly`) and **the packet stack** (`Checksum`, `Net`,
  `Refusals`, `Neighbors`, `Stack`; RFC 1071, RFC 791, RFC 768, RFC 826). `Refusals`
  gives the exact conditions on a frame's bytes under which it is answered, and what
  damage does to a datagram.
* **Quantized kernels** (`Lanes`, `Quant`, `Packing`, `Singles`, `Scalar`, `Avx2`,
  `Neon`, `Quantize`). SIMD lanes are lists of integers under the saturating and
  wrapping semantics of the instructions. The scalar and NEON kernels are proved
  against one order of float operations that may round in any deterministic way, so
  they agree bit for bit; what is algebra is stated over exact reals.
* **Memory and sampling** (`Arena`, `Sampler`, `Temperature`).
* **Known answers** (`Vectors`): published examples and written-out bytes that fix
  constants and byte orders.

## Where the code differs from its comments or from itself

The model follows the code.

* infer.rs, line 344 counts the batched norm buffer `dim` wide while line 479
  allocates it `max(dim, att_dim)` wide; `Arena.FitsIffSlack` says for every shape
  whether the computed size still suffices.
* infer.rs, line 597 promises that batched prefill is bit-identical to decoding.
  `Overlap.ChunkIsDecodeIff` gives the exact condition: the key heads divide the query
  heads, which nothing checks. Where they do not, the model on which the two runs
  differ uses fixed-point arithmetic with a softmax of equal shares, which is
  arithmetic the theorem admits and not f32.
* verify.rs, lines 50-69 take the tensor count from the header before anything is
  checked; it decides how much the metadata checksum covers, and
  `Damage.CountUnguarded` shows that a damaged count can pass.
* kernels.rs, lines 271-272 bound the pair sums for operands in -127..127. Sums stay
  in range for all signed bytes; what fails is the total, and only when an activation
  of -128 meets a negative weight.
* q8.rs, lines 31-32 promise an error of at most half a step.
  `Quantize.Block8ErrorIff` gives the exact condition, 127.5 stored steps must reach
  the largest magnitude; it fails for blocks so small that half precision rounds their
  scale to zero (`Quantize.ScaleLost`), and otherwise holds if rounding loses at most
  one part in 256 (`Quantize.Block8Rounded`).
* kquant.rs of the tests, lines 66-74 expect half a step of the Q8_K quantizer too. It
  holds exactly for values not beyond -255/256 of the largest
  (`Quantize.HalfStepIff`); the bound for all values is a whole step.
* blob.rs, line 65 admits four lengths shorter than the byte table; the section test
  at line 107 rejects them.
* verify.rs, line 77 does not check the sum it stores. The model lets it wrap at 64
  bits; `Verify.AcceptedParses` says when parsing then finds the file too short.
* lib.rs of the packet stack, lines 484-493 add into 32 bits without a check;
  `Checksum.WrappedIff` says when a wrapped sum still gives the right checksum, and
  `Checksum.WrapsWrongly` names bytes on which it does not.
* tokenizer.rs writes the two ids given by number without comparing them with the
  vocabulary; `Build.BuiltParses` says that the blob parses if and only if both are in
  it.

## Model

| member | source | states |
|---|---|---|
| Interchange.ChunkIsDecode | crates/nr-model/src/infer.rs:597-750 | for every configuration, cache and token list that fits, running all tokens of a chunk layer by layer leaves the same position, the same whole key and value cache and the same logits as running the tokens one by one through all layers |
| Interchange.PrefillIsDecode | crates/nr-model/src/infer.rs:752-759 | the same for any list of non-empty chunks: whatever the cuts, the result is that of sequential decoding of the concatenation |
| Interchange.OneMoreRow | crates/nr-model/src/infer.rs:617-738 | the loop interchange itself: adding one row to a batch changes nothing for the earlier rows, and the new row fares as if decoded alone on the cache the smaller batch leaves |
| Interchange.RowsAgree | crates/nr-model/src/infer.rs:661-685 | rows of a batch attend to the same values whether or not a later row has already been written to the cache |
| Forward.Causal | crates/nr-model/src/infer.rs:661-685 | what a layer makes of a token depends only on cache rows up to the token's own position |
| Interchange.DecodeIgnoresStale | crates/nr-model/src/infer.rs:546-572 | two caches that agree below the position give the same logits and agree below the new position after any tokens: no row is read before it is written |
| Interchange.ResetIsFresh | crates/nr-model/src/infer.rs:494-496 | after a reset, whatever the cache still holds, every prompt gives the logits and the rows a fresh context gives |
| Interchange.DecodeAppend | crates/nr-model/src/infer.rs:510-595 | decoding a concatenation is decoding the first part and then the second |
| Forward.WindowsFitIff | crates/nr-model/src/infer.rs:553-571 | every query head's window lies inside its cache row if and only if the key heads divide the query heads, which nothing in the source checks |
| Overlap.ChunkIsDecodeIff | crates/nr-model/src/infer.rs:597-685 | the exact condition of the promise: with at least as many query heads as key heads, batched prefill ends with the logits of decoding on every model with these head counts, every flat cache and every prompt that fits if and only if the key heads divide the query heads |
| Overlap.ChunkDiffers | crates/nr-model/src/infer.rs:661-685 | for every pair of head counts that does not divide, a model on whose empty cache the prefill of two tokens ends with other logits than decoding them, although every window lies inside the cache |
| FlatForward.FlatChunkIsDecode | crates/nr-model/src/infer.rs:597-750 | on the flat cache, where the counts divide, the batch and the decode leave the same logits and the same cache |
| FlatForward.FlatDecodeAppend | crates/nr-model/src/infer.rs:510-595 | on the flat cache decoding a concatenation is decoding its parts, whether or not the head counts divide |
| FlatForward.HeadAgrees | crates/nr-model/src/infer.rs:553-571 | where the head counts divide, a head that reads its window from the flat cache sees what it sees in the cache of rows |
| Forward.HeadWindow | crates/nr-model/src/infer.rs:553-571 | under that hypothesis, the slice bounds of every head of the query and of the cache row |
| Worked.PromptIs | crates/nr-model/src/infer.rs:508-595 | for all whole-number weights, any number of layers and every prompt: under arithmetic in which no two operands may change places, decoding a model of one number a head computes the transformer written out over lists of integers (scaled embedding, norm, head norm and rotation of four queries over two keys, scores, weights, values, output, residual, gated part, residual, final norm, classifier, logit scale) |
| Worked.SampleLogits | crates/nr-model/src/infer.rs:508-595 | one such model of two layers has the logits 14615 and -43849 after one token and 5963 and -17893 after two |
| Gated.UpUnseen | crates/nr-model/src/infer.rs:574-584 | if the gating operation ignores its second operand, models that differ in the up matrices only decode every prompt to equal sessions |
| Gated.GateUnseen | crates/nr-model/src/infer.rs:574-584 | if it ignores its first operand, the same for the gate matrices |
| Infer.InferCtx.constructor | crates/nr-model/src/infer.rs:447-491 | buffers of the allocated sizes, all distinct, position zero |
| Infer.InferCtx.Forward | crates/nr-model/src/infer.rs:508-595 | the method over flat buffers leaves the position, cache and logits of one reference step |
| Infer.InferCtx.PrefillChunk | crates/nr-model/src/infer.rs:597-750 | the batched method over flat buffers leaves the position, cache and logits of sequential decoding of its 1 to 64 tokens |
| Infer.InferCtx.Prefill | crates/nr-model/src/infer.rs:752-759 | the same for a prompt of any length, cut into chunks of 64 |
| Infer.InferCtx.Reset | crates/nr-model/src/infer.rs:494-496 | only the position changes; the cache bytes and logits stay |
| Infer.InferCtx.AppendKv | crates/nr-model/src/infer.rs:546-551 | writing one flat cache row changes exactly one row of one layer in each of the two caches |
| Infer.StoreRow | crates/nr-model/src/infer.rs:546-551 | the flat index of layer and position addresses one row: that row becomes the new one and every other row of every layer is untouched |
| Infer.InferCtx.AttendHead | crates/nr-model/src/infer.rs:557-572 | the score, softmax and accumulation loops of one head over the flat cache compute the head's output on the cache seen as rows |
| Infer.InferCtx.Attend | crates/nr-model/src/infer.rs:557-572 | the outputs of all heads, side by side |
| Infer.InferCtx.BatchQkv | crates/nr-model/src/infer.rs:620-637 | after the norm and the grouped products each row of the three buffers is the product of its weight matrix with the normed row |
| Infer.InferCtx.RotateRows | crates/nr-model/src/infer.rs:639-659 | all rows of the batch are normed, rotated at their own positions and appended before any row attends; no other layer changes |
| Infer.InferCtx.AttendRows | crates/nr-model/src/infer.rs:661-685 | every row attends to the cache that already holds the whole batch |
| Infer.InferCtx.MlpRows | crates/nr-model/src/infer.rs:702-737 | the MLP block of every row |
| Infer.InferCtx.BatchStep | crates/nr-model/src/infer.rs:617-738 | one layer over a batch: hidden rows and cache are those of the reference batched layer, other layers untouched |
| Infer.InferCtx.TokenStep | crates/nr-model/src/infer.rs:523-584 | one layer for one token: hidden state and cache are those of the reference layer, other layers untouched |
| Infer.InferCtx.Finish | crates/nr-model/src/infer.rs:586-591 | final norm, classifier and logit scale of one hidden state |
| Activations.Acts.QuantizeRow | crates/nr-model/src/infer.rs:138-151 | one input row is quantized into its own place of the scratch buffer and nothing else there changes |
| Activations.Acts.MatvecGroup | crates/nr-model/src/infer.rs:230-261 | each output of a group sharing one input is its matrix times the input, although every format is quantized only once |
| Activations.Acts.MatmulGroup | crates/nr-model/src/infer.rs:178-228 | the same for a batch: every output row is the product of the matrix with that input row |
| Activations.Acts.MatvecOne | crates/nr-model/src/infer.rs:111-132 | a single product, quantizing its own input |
| Activations.Acts.MatmulOne | crates/nr-model/src/infer.rs:134-176 | a single batched product, quantizing its own input |
| Kernels.Matmul | crates/nr-tensor/src/kernels.rs:84-143 | every output cell (b, r) holds the dot of weight row r with activation row b, whatever ranges the pool hands out and whether or not the four-wide tiles run; nothing past the batch changes |
| Kernels.AnyInterleaving | crates/nr-tensor/src/kernels.rs:84-143 | the stores of the threads may interleave in any order and repeat: once every cell has been stored the output is finished in the same sense, and nothing past the batch has changed |
| Kernels.DoneDetermines | crates/nr-tensor/src/kernels.rs:137-138 | two finished outputs over the same buffer are equal |
| Kernels.MatmulRow | crates/nr-tensor/src/kernels.rs:106-141 | tiles of four and the remainder write each cell of one weight row and keep all finished cells |
| Kernels.DotX4 | crates/nr-tensor/src/kernels.rs:222-256 | four interleaved accumulations, sharing the weight blocks, give in each lane the one-wide dot |
| Kernels.Matvec | crates/nr-tensor/src/kernels.rs:33-70 | every output of the unbatched product is the dot of its row |
| Kernels.AnyStores | crates/nr-tensor/src/kernels.rs:33-70 | the unbatched stores in any order, covering all rows, leave the same vector |
| Kernels.RowsAreProducts | crates/nr-tensor/src/kernels.rs:84-90 | the batched result seen row by row is the unbatched product of the vector each activation row quantizes |
| Kernels.AtInjective | crates/nr-tensor/src/kernels.rs:137-138 | the flat index of an output cell determines the batch row and the weight row |
| Pool.LifetimeSafety | crates/nr-tensor/src/parallel.rs:57-105 | for every schedule of a main thread and exactly n workers: no task is dereferenced after its run returned, a worker inside drain works on the live task, and none is inside drain while the fields of the next job are being stored |
| Pool.ExactlyOnce | crates/nr-tensor/src/parallel.rs:74-105 | for every such schedule: rows in flight are pairwise disjoint, no row has run twice, and when run returns every row of the job ran exactly once |
| Pool.StepKeepsInv | crates/nr-tensor/src/parallel.rs:57-105 | every single atomic step of any thread keeps the pool's invariant |
| Pool.ReturnState | crates/nr-tensor/src/parallel.rs:101-105 | when the wait ends, every worker has reported and spins again, and all rows ran once |
| PoolProducts.BatchFinished | crates/nr-tensor/src/kernels.rs:84-143 | when the pool returns from a batched product, after any schedule and any interleaving of the stores of the rows that ran, every row of the output is finished and nothing past the batch has changed |
| PoolProducts.VectorFinished | crates/nr-tensor/src/kernels.rs:33-70 | likewise an unbatched product is the vector of its rows' dots |
| PoolProgress.StepProgress | crates/nr-tensor/src/parallel.rs:58-105 | every step of a posted job spins in place, ends the job, or decreases a well-founded measure |
| PoolProgress.WorkBound | crates/nr-tensor/src/parallel.rs:58-105 | over any schedule a job that has not returned took at most as many effective steps as the measure at its start |
| PoolProgress.Completes | crates/nr-tensor/src/parallel.rs:58-105 | from any posted state without lost workers some schedule makes run return |
| PoolProgress.FairReturn | crates/nr-tensor/src/parallel.rs:58-105 | every schedule of rounds in which each thread moves makes run return within that many rounds |
| PoolProgress.LostForever | crates/nr-tensor/src/parallel.rs:58-63 | a worker that first reads seq after the post never takes part, and no schedule at all lets that run return |
| PoolProgress.ReturnsIff | crates/nr-tensor/src/parallel.rs:58-104 | a posted job can return if and only if every worker had done its first load of seq before the post |
| PoolProgress.WholeRun | crates/nr-tensor/src/parallel.rs:46-105 | for any number of workers and any schedule from the start: every state the run passes through can still return to the caller (unless it panicked) if and only if every worker had read seq when the first job was posted; later jobs need no hypothesis |
| PoolProgress.WholeRunFair | crates/nr-tensor/src/parallel.rs:57-105 | from any posted state of such a run, whichever job it is, more rounds than the measure in which every thread moves make run return |
| PoolProgress.FinalCursor | crates/nr-tensor/src/parallel.rs:77-81 | at return the cursor is the total rounded up to whole chunks plus exactly n + 1 more chunks |
| Vectors.ClaimShare | crates/nr-tensor/src/parallel.rs:97 | a claim takes a quarter of an equal share of the rows among all threads, but never fewer than 16 |
| PoolSurplus.SurplusWorkerUnsafe | crates/nr-tensor/src/parallel.rs:46-50 | for every n >= 1 and any larger number of spinning workers there is a schedule in which a task is dereferenced after its run returned |
| PoolSurplus.SafeIffExact | crates/nr-tensor/src/parallel.rs:46-50 | lifetime safety over all schedules holds if and only if exactly the n activated workers spin |
| Crc.MakeTables | crates/nr-model/src/crc32.rs:6-33 | the table builder fills 8 times 256 entries with the values of the recurrence |
| Crc.EntryMeaning | crates/nr-model/src/crc32.rs:23-31 | entry i of table s is the bitwise register after byte i and s zero bytes |
| Crc.BitsLinear | crates/nr-model/src/crc32.rs:12-19 | the zero-input shift register is linear over exclusive or, for any number of bits |
| Crc.EightBytes | crates/nr-model/src/crc32.rs:47-57 | eight table lookups combined by exclusive or are eight bytes of the bitwise definition |
| Crc.Crc32.Update | crates/nr-model/src/crc32.rs:44-62 | slicing by eight with its byte-wise remainder is the bitwise definition, for every register and byte string |
| Crc.StateAppend | crates/nr-model/src/crc32.rs:44-62 | hashing in pieces is hashing the concatenation, for every cut |
| Crc.Crc32.Finish | crates/nr-model/src/crc32.rs:64-66 | the final value is the one-shot checksum of whatever brought the register here |
| Crc.ComputeChecksum | crates/nr-model/src/crc32.rs:75-79 | the one-shot function is the bitwise checksum |
| Crc.StateInjective | crates/nr-model/src/crc32.rs:44-62 | feeding the same bytes never merges two different registers |
| Crc.BurstDetected | crates/nr-model/src/crc32.rs:44-66 | a change confined to at most four consecutive bytes changes the checksum, at every length and position |
| Crc.Reach | crates/nr-model/src/crc32.rs:44-66 | from every register some four bytes lead to every other, so the guarantee ends at four bytes |
| Crc.MaskCrc32 | crates/nr-mcp/src/lib.rs:248-258 | the mask form of the datagram protocol is the same function |
| Crc.CheckValue | crates/nr-model/tests/verify.rs:9-11 | the checksum of the ASCII digits one to nine is 0xcbf43926 |
| Crc.LeadingZeroSeen | crates/nr-model/src/crc32.rs:39-42 | a zero byte in front changes the checksum of every byte string: the register does not start at zero |
| Crc.OwnChecksumBehind | crates/nr-model/src/crc32.rs:44-66 | every byte string followed by its own checksum has the checksum 0x2144df1c |
| Wire.Burst | crates/nr-model/src/crc32.rs:44-66 | the four-byte guarantee for files and messages as sequences of byte values |
| Format.Parse | crates/nr-model/src/format.rs:260-406 | parsing through the cursor answers what the one-shot specification answers, error by error |
| Format.Cursor.NextEntry | crates/nr-model/src/format.rs:358-395 | one table entry is read, range-checked, alignment-checked and size-checked |
| Format.Cursor.NextMeta | crates/nr-model/src/format.rs:270-301 | the header scalars are those at their fixed offsets |
| Format.MetaChecksum | crates/nr-model/src/format.rs:335-342 | four pieces hashed one after another are one checksum over the header with zeroed fields, the tokenizer and the table |
| Format.EntriesGood | crates/nr-model/src/format.rs:353-395 | every entry of an accepted table passed all its gates |
| Format.ParsedInRange | crates/nr-model/src/format.rs:361-377 | in a parsed model every tensor lies inside the data section on a 64-byte boundary |
| Gates.CoherentIff | crates/nr-model/src/format.rs:303-322 | the gates on bit patterns accept exactly finite single-precision numbers with a non-negative attention scale and positive residual and logit scales, by their IEEE value |
| Gates.SizeIff | crates/nr-model/src/format.rs:107-124 | a tensor has a byte size exactly if whole blocks fill it, namely 4, 34, 144 or 210 bytes for each block of 1, 32, 256 or 256 elements |
| Gates.EntryMeans | crates/nr-model/src/format.rs:353-395 | so every tensor of a parsed file starts at a multiple of 64, ends inside the data section and has the size of its blocks |
| Vectors.FileLayout | crates/nr-model/src/format.rs:270-301 | where a parsed file keeps its sizes, scales, sections and data checksum |
| Vectors.FileStart | tools/nrconvert/src/main.rs:373-375 | every written file begins with the magic and version 3 in little-endian order |
| Format.VerifyData | crates/nr-model/src/format.rs:408-422 | hashing the data section in 32 MiB pieces decides the checksum of the whole |
| Verify.StreamingVerifier.Open | crates/nr-model/src/verify.rs:39-81 | a verifier exists exactly when the header passes its gate, and then holds the section bounds and checksums of that header |
| Verify.StreamingVerifier.Feed | crates/nr-model/src/verify.rs:83-110 | after any chunk the two hashers stand where one-shot hashing of everything fed so far would stand, including chunks that cut the checksum fields, the padding or a section border |
| Verify.MaskedPieces | crates/nr-model/src/verify.rs:91-101 | the three updates around the checksum fields hash the masked bytes |
| Verify.DataGrow | crates/nr-model/src/verify.rs:104-109 | the part of a chunk routed to the data hasher is exactly the new part of the data section |
| Verify.StreamingVerifier.Finish | crates/nr-model/src/verify.rs:112-120 | the verdict is a function of the bytes fed and not of how they were cut |
| Verify.StreamingAgrees | crates/nr-model/src/verify.rs:83-110 | on a file that holds its sections, both streamed byte strings are the ones parsing and the data check hash |
| Verify.ParsedVerdict | crates/nr-model/src/verify.rs:112-120 | a file that parses is accepted by streaming if and only if its sections are in streaming order and its data check passes |
| Verify.AcceptedParses | crates/nr-model/src/verify.rs:112-120 | a file accepted by streaming parses exactly when its architecture is known, its scalars pass the gates, its data section ends inside the file and its table entries pass theirs; it is too short exactly when only the third fails, never a header or checksum failure, and when it parses its data check passes |
| Verify.DataDamage | crates/nr-model/src/verify.rs:112-119 | four damaged bytes anywhere in the data section of an accepted file always give the data error |
| Verify.MetaDamage | crates/nr-model/src/verify.rs:112-115 | four damaged bytes among the scalars and the name in the header, in the tokenizer blob or in the table always give the metadata error |
| Verify.TagDamage | crates/nr-model/src/verify.rs:42-50 | any damage to the magic or the version is a bad header |
| Verify.OrderDamage | crates/nr-model/src/verify.rs:50-69 | four damaged bytes among the place and size of the tokenizer blob and the place of the table are always a bad header: no such change keeps the sections in order |
| Verify.SectionDamage | crates/nr-model/src/verify.rs:50-69 | four damaged bytes in the unused field or among the place and size of the data section give a bad header when the section then starts before the table ends, and otherwise the metadata error |
| Verify.ChecksumDamage | crates/nr-model/src/verify.rs:112-120 | any damage to a stored checksum is reported as a mismatch of the section it is for, the metadata one first |
| Verify.FourByteDamage | crates/nr-model/src/verify.rs:83-120 | damage of any four consecutive bytes of an accepted file that holds its sections goes unnoticed if and only if it leaves all of the metadata and all of the data section as they were, unless it reaches the tensor count or both the metadata checksum and the metadata behind it |
| Damage.CountUnguarded | crates/nr-model/src/verify.rs:50-69 | that exception is needed: whatever the other header fields, two accepted files differ in the tensor count and nowhere else |
| Damage.SumAndBlobUnguarded | crates/nr-model/src/verify.rs:91-115 | and so is the other: two accepted files differ only in three bytes of the metadata checksum and the first byte behind it |
| Verify.Load | crates/nr-boot/src/modelload.rs:64-93 | however the firmware cuts its reads, loading yields the bytes of the file exactly when the one-shot verdict accepts them, and otherwise that verdict's error |
| Converter.AssignOffsets | tools/nrconvert/src/main.rs:317-324 | the running cursor gives each tensor its 64-byte-aligned offset and the size of the data section |
| Converter.Placed | tools/nrconvert/src/main.rs:317-324 | each tensor's bytes stand at its offset, aligned and inside the data section |
| Converter.Disjoint | tools/nrconvert/src/main.rs:317-324 | no two tensors overlap |
| Converter.SerializeTable | tools/nrconvert/src/main.rs:333-344 | the table the loop appends |
| Converter.DataChecksum | tools/nrconvert/src/main.rs:351-365 | hashing tensors and padding in turn is the checksum of the data section |
| Converter.SerializeHeader | tools/nrconvert/src/main.rs:372-404 | the header up to its checksum fields |
| Converter.AppendTensors | tools/nrconvert/src/main.rs:423-429 | growing the file to each tensor's place and appending it produces the data section |
| Converter.Convert | tools/nrconvert/src/main.rs:317-429 | the whole assembly writes the file of the layout |
| Converter.RoundTrip | tools/nrconvert/src/main.rs:432-434 | parsing what was written gives back the header values, every entry, the tokenizer blob and the data, for all block-aligned tensors |
| Converter.Accepted | tools/nrconvert/src/main.rs:435 | the written file passes the data check and the streaming check |
| Converter.TensorBack | crates/nr-model/src/format.rs:424-435 | looking a tensor up in the written file gives its type, shape and bytes |
| Nrmp.EncodeFragment | crates/nr-mcp/src/lib.rs:98-128 | the result, and when it is a length, exactly the datagram written in front of the untouched rest of the buffer |
| Nrmp.ParseEncoded | crates/nr-mcp/src/lib.rs:130-174 | parsing undoes encoding for every valid fragment |
| Nrmp.ParseExact | crates/nr-mcp/src/lib.rs:130-174 | whatever parses is the encoding of the fragment it parses to |
| Nrmp.PieceOf | crates/nr-mcp/src/lib.rs:109-111 | every byte of a message is in the piece its position names |
| Vectors.FragmentStart | crates/nr-mcp/src/lib.rs:111-128 | the 24 header bytes of one fragment, written out |
| Vectors.FragmentIff | crates/nr-mcp/src/lib.rs:130-174 | a datagram parses if and only if its magic, version and kind are these, its count is that of its length, its index is below the count, and it holds exactly its piece |
| Vectors.PieceLimits | crates/nr-mcp/src/lib.rs:87-96 | exactly the lengths 1 to 64 times 1176 can be sent, in datagrams of at most 1200 bytes |
| Reassembly.Reassembler.Push | crates/nr-mcp/src/lib.rs:205-245 | the object's whole new state and reply, and that the mask shift and the copy stay in range |
| Reassembly.MaskComplete | crates/nr-mcp/src/lib.rs:227-232 | the mask equals the complete mask exactly when all pieces are in, 64 pieces included |
| Reassembly.SpliceTail | crates/nr-mcp/src/lib.rs:225-226 | storing a piece writes nothing at or past the message length |
| Reassembly.PushPiece | crates/nr-mcp/src/lib.rs:210-245 | one more piece of a message, in flight or new: either it completes it or the state holds one piece more |
| Reassembly.Incomplete | crates/nr-mcp/src/lib.rs:205-245 | while a piece is missing every reply is none, in any order and with any repeats |
| Reassembly.Completes | crates/nr-mcp/src/lib.rs:205-245 | uninterrupted delivery from idle or from another message yields none until the last missing piece and then exactly the message, if and only if it matches the announced checksum |
| Reassembly.DamageCaught | crates/nr-mcp/src/lib.rs:236-239 | a message whose bytes differ from the announced ones in at most four consecutive places always ends in a checksum mismatch |
| Reassembly.RunSafe | crates/nr-mcp/src/lib.rs:176-245 | over every run of honest datagrams with loss, reordering, duplication and interleaving, each completed message is one that was sent |
| Reassembly.InitialSafe | crates/nr-mcp/src/lib.rs:189-202 | a new reassembler starts such a run |
| Pretok.MatchFirst | crates/nr-token/src/pretok.rs:61-177 | the byte length returned is that of the first match of the seven-alternative ordered pattern with greedy backtracking, for every non-empty text and both styles |
| Pretok.TryContraction | crates/nr-token/src/pretok.rs:66-78 | the byte tests for contractions match what the first alternative matches |
| Pretok.TryWord | crates/nr-token/src/pretok.rs:80-105 | the second alternative |
| Pretok.TryNumber | crates/nr-token/src/pretok.rs:107-124 | the third alternative, up to three digits or one |
| Pretok.TrySymbols | crates/nr-token/src/pretok.rs:126-147 | the fourth alternative |
| Pretok.TrySpaces | crates/nr-token/src/pretok.rs:149-173 | the three whitespace alternatives together |
| Pretok.LinesMatchFrom | crates/nr-token/src/pretok.rs:160-163 | backtracking out of a greedy whitespace run ends after its last newline |
| Pretok.GapMatchFrom | crates/nr-token/src/pretok.rs:164-170 | the lookahead makes a whitespace run give back one character when a word follows |
| Pretok.NothingLeft | crates/nr-token/src/pretok.rs:175-176 | the pattern matches every non-empty text, so the fallback is unreachable |
| Pretok.NumbersSplit | crates/nr-token/src/pretok.rs:107-124 | a text of number characters is cut into groups of three or into single characters |
| Pretok.WordInContext | crates/nr-token/src/pretok.rs:76-105 | a run of letters, with one character before it that is no letter, number, quote or newline, is one chunk |
| Pretok.NumberInContext | crates/nr-token/src/pretok.rs:107-124 | a run of number characters, even right before a word, is cut as far as the style allows |
| Pretok.NewlineInContext | crates/nr-token/src/pretok.rs:76-92 | a newline before a word stays outside it |
| Pretok.SymbolsInContext | crates/nr-token/src/pretok.rs:126-148 | two or more symbols and the newlines right behind them are one chunk |
| Pretok.Chunks.Next | crates/nr-token/src/pretok.rs:35-43 | each chunk is non-empty, ends on a character boundary and leaves the rest of the text |
| Pretok.SplitJoins | crates/nr-token/src/pretok.rs:28-44 | the chunks are non-empty and concatenate to the text |
| Pretok.Collect | crates/nr-token/src/pretok.rs:28-44 | running the iterator to its end yields those chunks |
| Blob.Parse | crates/nr-token/src/blob.rs:64-149 | the validating loop accepts exactly the blobs of the one-shot specification, with the same errors |
| Blob.FindMerge | crates/nr-token/src/blob.rs:184-205 | the search loop computes the bisection |
| Blob.BisectIsLinear | crates/nr-token/src/blob.rs:184-205 | over strictly sorted merges the binary search returns what a linear lookup returns |
| Blob.BisectFinds | crates/nr-token/src/blob.rs:184-205 | even with repeated pairs the search succeeds whenever the pair is present |
| Vectors.BlobLayout | crates/nr-token/src/blob.rs:64-149 | where a parsed blob keeps its sizes, template and special ids |
| Blob.BestIsLowest | crates/nr-token/src/blob.rs:211-219 | the scan picks the leftmost pair of lowest rank, or shows that no pair merges |
| Blob.EncodeChunk | crates/nr-token/src/blob.rs:207-229 | the in-place loop appends the byte-pair encoding of the chunk and ends |
| Blob.BpeIsReference | crates/nr-token/src/blob.rs:207-229 | over a strictly ordered merge table, every run of the reference algorithm (apply the table entry of lowest rank, leftmost, until no entry applies, looking only at the table) ends with what the encoder makes of its first list |
| Blob.ReferenceEnds | crates/nr-token/src/blob.rs:207-229 | from every token list the reference algorithm has a run, and it ends with the encoder's result, to which no table entry applies |
| Blob.BpeIsFinal | crates/nr-token/src/blob.rs:184-229 | even where a pair is listed twice, no table entry applies to what the encoder leaves |
| Blob.TwiceDiffers | crates/nr-token/src/blob.rs:184-219 | but equality with the reference then fails: in an ordered table of three entries that lists one pair twice, bisection meets the later entry and the encoder merges another pair first |
| Blob.EncodeText | crates/nr-token/src/blob.rs:231-242 | a text is encoded chunk by chunk in the style of its template |
| Blob.NumbersEncoded | crates/nr-token/src/blob.rs:231-242 | a text of number characters is encoded one character at a time under ChatMl, and in groups of three with a shorter last one under Llama 3 and Granite |
| Blob.TextRoundTrip | crates/nr-token/src/blob.rs:231-242 | under a faithful blob the tokens of every text concatenate to its bytes and none is a control token |
| Build.UnicodeToByte | tools/nrconvert/src/tokenizer.rs:7-26 | the reverse table maps each byte's spelling to the byte and nothing else |
| Build.SpelledInjective | tools/nrconvert/src/tokenizer.rs:9-26 | different bytes are spelled by different characters |
| Vectors.SpelledIs | tools/nrconvert/src/tokenizer.rs:9-26 | the character that spells each byte, in closed form |
| Build.SpellRoundTrip | tools/nrconvert/src/tokenizer.rs:92-104 | decoding undoes the spelling of every byte string |
| Build.DecodeVocab | tools/nrconvert/src/tokenizer.rs:106-123 | raw bytes, flags and the last id of every token string |
| Build.IndexBytes | tools/nrconvert/src/tokenizer.rs:125-133 | the index gives the first ordinary token of each byte string |
| Build.ResolveMerges | tools/nrconvert/src/tokenizer.rs:145-165 | exactly the merges whose three strings are ordinary tokens, in rank order, or failure at a string without a space |
| Build.ResolvedConcatenate | tools/nrconvert/src/tokenizer.rs:150-164 | every resolved merge joins ordinary tokens into an ordinary token with the concatenated bytes |
| Build.SortOrders | tools/nrconvert/src/tokenizer.rs:166 | sorting orders the merges by pair and keeps them all |
| Build.Serialize | tools/nrconvert/src/tokenizer.rs:200-209 | table and pool, or failure at a token too long for its field |
| Build.Build | tools/nrconvert/src/tokenizer.rs:46-238 | a blob comes out exactly when no check of the builder fails, and it is the laid-out one |
| Build.BuiltParses | tools/nrconvert/src/tokenizer.rs:211-231 | a built blob parses back to the builder's sections if and only if the two ids given by number are in the vocabulary, which the builder does not check; otherwise it is refused |
| Build.BuiltIsFaithful | tools/nrconvert/src/tokenizer.rs:125-166 | in a built blob byte tokens are their bytes, merges concatenate, none of them is a control token, and the merges are ordered |
| Build.SortedIffDistinct | tools/nrconvert/src/tokenizer.rs:166 | the merges are strictly ordered, so that bisection is a lookup, if and only if no two merges resolve to one pair |
| Build.BuiltIsReference | tools/nrconvert/src/tokenizer.rs:145-166 | with no pair listed twice, encoding with a built blob is the reference algorithm over the builder's merges |
| Build.BuiltIsFinal | tools/nrconvert/src/tokenizer.rs:145-166 | with any built blob, pairs listed twice included, no merge applies to what the encoder leaves |
| Build.BuiltRoundTrip | tools/nrconvert/src/tokenizer.rs:46-238 | for every text the tokens of a built blob give back its bytes without any control token |
| Template.EncodeHeader | crates/nr-token/src/template.rs:33-52 | the tokens of a header in each template |
| Template.EncodeMessage | crates/nr-token/src/template.rs:54-62 | the tokens of one message |
| Template.EncodeConversationStart | crates/nr-token/src/template.rs:64-73 | the tokens that open a conversation |
| Template.UniqueConversation | crates/nr-token/src/template.rs:54-73 | an encoded conversation determines its list of roles and contents in all three templates, whatever the contents contain (with newline-free roles where only a newline ends the role) |
| Template.TextInjective | crates/nr-token/src/blob.rs:231-242 | different texts have different tokens |
| Rendering.PromptBytes | crates/nr-token/src/template.rs:1-73 | with a built blob the bytes of all tokens of a conversation and of the header that asks for the next message, markers included, are the documented text of the template, behind the opening token of Llama 3 |
| Rendering.MessageBytes | crates/nr-token/src/template.rs:54-62 | the same for one message |
| Rendering.NeverFromText | crates/nr-token/src/blob.rs:231-242 | no text is encoded with a token whose type is control or user-defined |
| Flush.Stream.FlushUtf8 | crates/nr-token/src/lib.rs:18-46 | the loop ends on every input, moves out the text and keeps the tail of one flush |
| Flush.CutsDoNotMatter | crates/nr-token/src/lib.rs:18-46 | however a byte stream is cut into tokens, text and pending tail are those of one flush of the whole |
| Flush.FlushEarly | crates/nr-token/src/lib.rs:23-46 | flushing a prefix first changes nothing |
| Flush.TailIsShort | crates/nr-token/src/lib.rs:39-42 | what stays pending is empty or a proper prefix, at most three bytes, of a well-formed sequence |
| Flush.ShortIff | crates/nr-token/src/lib.rs:36-42 | the decoder waits exactly for the proper prefixes of well-formed sequences |
| Flush.ValidUnchanged | crates/nr-token/src/lib.rs:26-36 | a valid stream, possibly cut inside its last character, comes out unchanged with that tail kept |
| Flush.StrayDropped | crates/nr-token/src/lib.rs:36-38 | a byte that cannot begin a character is dropped alone |
| Flush.StreamRoundTrip | crates/nr-token/src/lib.rs:18-46 | the bytes of any text in any tokens come out as the text with nothing pending |
| Flush.FrontBytes | crates/nr-token/src/lib.rs:25-36 | the character read at the front has exactly the bytes it was read from |
| Flush.FrontOfChar | crates/nr-token/src/lib.rs:25-36 | every encoded character is recognized whole, whatever follows |
| Checksum.FoldIsResidue | crates/nr-net/src/lib.rs:495-500 | the fold computes the sum's representative modulo 65535 in 1..65535, and zero only for zero |
| Checksum.SelfChecks | crates/nr-net/src/lib.rs:479-500 | a sum to which its checksum is added always verifies |
| Vectors.Rfc1071Example | crates/nr-net/src/lib.rs:642-648 | the example of RFC 1071 has the sum 0x2ddf0 and the checksum 0x220d |
| Checksum.ZeroSent | crates/nr-net/src/lib.rs:216-217 | so does the all-ones form sent for a zero checksum |
| Checksum.FieldVerifies | crates/nr-net/src/lib.rs:455-456 | a packet whose field at an even offset holds the checksum of the rest verifies, at odd lengths too |
| Checksum.PartialSum | crates/nr-net/src/lib.rs:484-493 | the running sum is the sum of big-endian words modulo 2 to the 32 |
| Checksum.ComputeChecksum | crates/nr-net/src/lib.rs:480-482 | for every byte string the checksum of the wrapped sum, and so the checksum of the sum up to 131074 bytes, which includes every IPv4 packet |
| Checksum.WrappedIff | crates/nr-net/src/lib.rs:484-500 | a sum that wrapped still gives the right checksum if and only if the number of wraps is a multiple of 65535 and the rest is not zero |
| Checksum.WrapsWrongly | crates/nr-net/src/lib.rs:484-500 | and 65538 words of ones are bytes whose sum wraps to a wrong checksum |
| Net.UdpVerifies | crates/nr-net/src/lib.rs:210-217 | a datagram verifies under its own addresses for every payload |
| Net.UdpParses | crates/nr-net/src/lib.rs:356-380 | parsing a sent datagram gives back ports and payload |
| Net.Delivered | crates/nr-net/src/lib.rs:148-219 | every frame sent toward a resolved peer or broadcast is accepted there with the same addresses, ports and payload, up to 65507 bytes |
| Net.Resolved | crates/nr-net/src/lib.rs:221-253 | an address request is answered by its target, and the answer teaches the asker the target's address |
| Net.EchoReplyVerifies | crates/nr-net/src/lib.rs:293-330 | every accepted echo request gets a reply whose two checksums verify, addressed back, with identifier, sequence number and data kept |
| Refusals.DatagramIff | crates/nr-net/src/lib.rs:146-292 | a frame is answered with a datagram if and only if it is addressed here, its header is whole, unfragmented and sums to a nonzero multiple of 65535, its protocol is 17, its lengths fit, and its stored checksum is zero or the words of both addresses, 17, the length and the packet sum to a nonzero multiple of 65535; and then with exactly its addresses, ports and payload |
| Refusals.EchoIff | crates/nr-net/src/lib.rs:293-330 | a frame of the IPv4 type gets a reply if and only if its header is sound and addressed here, its message sums to a nonzero multiple of 65535 and is an echo request, and the reply fits |
| Refusals.ArpIff | crates/nr-net/src/lib.rs:221-253 | which address messages teach, which are answered and which are reported, by their bytes |
| Refusals.ElsewhereIgnored | crates/nr-net/src/lib.rs:151-154 | a frame for another interface, or a sound packet for another address, has no effect |
| Refusals.BadHeaderRefused | crates/nr-net/src/lib.rs:255-280 | a header that is not sound is an error and teaches nothing |
| Refusals.DamagedIff | crates/nr-net/src/lib.rs:369-372 | a sent datagram whose ports, payload or stored checksum changed on the way is accepted if and only if the sum of its words changed by a multiple of 65535, and otherwise answered as an invalid checksum |
| Refusals.WordDamage | crates/nr-net/src/lib.rs:369-372 | so one changed word is always noticed, unless all its bits were zero and are one now or the reverse |
| Vectors.HeaderBytes | crates/nr-net/src/lib.rs:438-457 | the 20 bytes of a known header |
| Vectors.DatagramBytes | crates/nr-net/src/lib.rs:204-217 | the nine bytes of a datagram, checksum included |
| Vectors.RequestBytes | crates/nr-net/src/lib.rs:382-430 | an address request with every constant in its place |
| Neighbors.LearnedKeeps | crates/nr-net/src/lib.rs:332-353 | learning keeps the bound and the unique addresses |
| Neighbors.LearnedFinds | crates/nr-net/src/lib.rs:332-353 | what was taught is found, and every other address keeps its answer unless it was the oldest of a full table |
| Vectors.Unteachable | crates/nr-net/src/lib.rs:333-336 | the unspecified address and the zero and broadcast interfaces are never learned |
| Neighbors.Table.Learn | crates/nr-net/src/lib.rs:332-353 | the array with its write index refines the bounded first-in-first-out map |
| Neighbors.Table.Neighbor | crates/nr-net/src/lib.rs:139-144 | the scan answers the map's lookup |
| Neighbors.Appended | crates/nr-net/src/lib.rs:345-352 | a store at the write index appends and, in a full ring, drops exactly the oldest entry |
| Stack.Stack.constructor | crates/nr-net/src/lib.rs:116-127 | an empty table and identification 1 |
| Stack.Stack.SetConfig | crates/nr-net/src/lib.rs:133-137 | the table is emptied, the identification kept |
| Stack.Stack.ReceiveFrame | crates/nr-net/src/lib.rs:146-166 | answer, reply bytes and new table are those of the frame's specification, and bytes past the reply are untouched |
| Stack.Stack.SendUdp | crates/nr-net/src/lib.rs:168-219 | the exact frame, or the exact address request, or the error, and when the identification advances |
| Stack.SubnetIsMasked | crates/nr-net/src/lib.rs:459-461 | the next hop is the destination if the 32-bit addresses agree under the mask, and else the gateway |
| Stack.WriteIpv4Header | crates/nr-net/src/lib.rs:438-457 | the header with its own checksum |
| Stack.WriteArp | crates/nr-net/src/lib.rs:406-430 | the request or reply frame, or an error and an untouched buffer |
| Stack.WriteEchoReply | crates/nr-net/src/lib.rs:315-328 | patching the copied request in place produces the reply |
| Lanes.MaddubsExact | crates/nr-tensor/src/kquant.rs:296-298 | with bounded operands the saturating byte product is exact |
| Lanes.MaddExact | crates/nr-tensor/src/kquant.rs:297-299 | with bounded operands the 16-bit product does not wrap |
| Avx2.Q8Exact | crates/nr-tensor/src/kernels.rs:271-276 | the lane total of the sign trick equals the scalar sum if and only if no activation is -128 against a negative weight |
| Avx2.Q8Maddubs | crates/nr-tensor/src/kernels.rs:271-276 | nothing saturates even with -128 among the operands |
| Avx2.DotQ8Avx2 | crates/nr-tensor/src/kernels.rs:263-286 | over exact reals and all signed bytes the kernel is the scalar dot less 256 times each scaled negative weight that meets a -128 |
| Avx2.ClampedMissesNothing | crates/nr-tensor/src/kernels.rs:263-286 | on activations that avoid -128, as all quantized ones do, nothing is missed |
| Avx2.Dot8IsDequantized | crates/nr-tensor/src/kernels.rs:72-82 | over exact reals and any number of blocks the Q8_0 dot is the dot of dequantized weights and activations |
| Avx2.Q4Lanes | crates/nr-tensor/src/kquant.rs:285-301 | the lane total of a Q4_K block is the scalar integer sum, with a bound that rules out overflow |
| Avx2.DotQ4KAvx2 | crates/nr-tensor/src/kquant.rs:260-305 | the Q4_K kernel is the scalar dot |
| Avx2.OffsetProducts | crates/nr-tensor/src/kquant.rs:498-502 | subtracting 32 times the activations after the unsigned product neither saturates nor wraps and gives the offset product |
| Avx2.PlaneIsLanes | crates/nr-tensor/src/kquant.rs:482-494 | the shifts and masks across 16-bit lanes unpack the scalar kernel's quants |
| Avx2.Q6Lanes | crates/nr-tensor/src/kquant.rs:465-506 | the lane total of a Q6_K block is the scalar integer sum, with a bound |
| Avx2.DotQ6KAvx2 | crates/nr-tensor/src/kquant.rs:454-510 | the Q6_K kernel is the scalar dot |
| Neon.DotI8x16Exact | crates/nr-tensor/src/neon.rs:54-65 | both instruction paths give the exact dot of 16 signed bytes |
| Neon.DotI8x32Exact | crates/nr-tensor/src/neon.rs:31-52 | both paths give the exact dot of 32 |
| Neon.Q4SubIs | crates/nr-tensor/src/neon.rs:203-222 | the two registers are the sub-block's quants |
| Neon.PlaneHalfIs | crates/nr-tensor/src/neon.rs:303-344 | each register is one group of offset quants |
| Neon.DotQ8 | crates/nr-tensor/src/neon.rs:71-101 | under any deterministic float operations the Q8_0 kernel computes bit for bit what the scalar one computes, on both paths |
| Neon.DotQ4K | crates/nr-tensor/src/neon.rs:224-257 | the same for the Q4_K kernel |
| Neon.DotQ6K | crates/nr-tensor/src/neon.rs:346-402 | the same for the Q6_K kernel |
| Neon.DotQ8X4 | crates/nr-tensor/src/neon.rs:103-134 | each lane of the four-wide Q8_0 kernel is bit for bit the one-wide kernel |
| Neon.DotQ4KX4 | crates/nr-tensor/src/neon.rs:259-301 | each lane of the four-wide Q4_K kernel, with its shared unpacking |
| Neon.DotQ6KX4 | crates/nr-tensor/src/neon.rs:404-464 | each lane of the four-wide Q6_K kernel |
| Scalar.DotQ8 | crates/nr-tensor/src/kernels.rs:72-82 | the scalar Q8_0 loop computes the Q8_0 dot in its operation order, under any deterministic float operations |
| Scalar.DotQ4K | crates/nr-tensor/src/kquant.rs:192-218 | the scalar Q4_K loop likewise |
| Scalar.DotQ6K | crates/nr-tensor/src/kquant.rs:220-250 | the scalar Q6_K loop, with its eight running group sums, likewise |
| Singles.ExactDot4 | crates/nr-tensor/src/kquant.rs:192-218 | without rounding that operation order computes the Q4_K dot |
| Singles.ExactDot6 | crates/nr-tensor/src/kquant.rs:220-250 | the same for Q6_K |
| Singles.ExactDot8 | crates/nr-tensor/src/kernels.rs:72-82 | the same for Q8_0 |
| Scalar.DequantQ4K | crates/nr-tensor/src/kquant.rs:95-118 | the loop writes the dequantized block |
| Scalar.DequantQ6K | crates/nr-tensor/src/kquant.rs:121-142 | the loop over four planes at a time fills every place of the dequantized block |
| Quant.UnpackPacked | crates/nr-tensor/src/kquant.rs:679-684 | unpacking the eight 6-bit pairs inverts packing them |
| Quant.PackUnpacked | crates/nr-tensor/src/kquant.rs:80-92 | packing inverts unpacking on all twelve-byte strings |
| Quant.PlanesRoundTrip | crates/nr-tensor/src/kquant.rs:736-764 | unpacking the low and high planes inverts packing them |
| Packing.DequantPacked4 | crates/nr-tensor/src/kquant.rs:94-125 | value i of a packed Q4_K block is scale times quant less minimum, for all scales, minimums and quants |
| Packing.DequantPacked6 | crates/nr-tensor/src/kquant.rs:127-155 | value i of a packed Q6_K block is scale times the quant less 32 |
| Quant.Dot4IsDequantized | crates/nr-tensor/src/kquant.rs:192-218 | over exact reals and any number of blocks the Q4_K dot is the dot of dequantized weights and activations, the minimum term going through the group sums |
| Quant.Dot6IsDequantized | crates/nr-tensor/src/kquant.rs:220-250 | the same for Q6_K |
| Quantize.Block8Clamped | crates/nr-tensor/src/q8.rs:37-42 | every quant lies in -127..127, whatever the stored scale |
| Quantize.Quant8Error | crates/nr-tensor/src/q8.rs:31-42 | within the range of the stored scale dequantizing is off by at most half a step |
| Quantize.Quant8ErrorIff | crates/nr-tensor/src/q8.rs:31-42 | dequantizing is off by at most half a step, as the comment promises, exactly for values of at most 127.5 steps |
| Quantize.Block8ErrorIff | crates/nr-tensor/src/q8.rs:27-44 | every value of a block is within half the step the block stores if and only if 127.5 such steps reach its largest magnitude |
| Quantize.Block8Rounded | crates/nr-tensor/src/q8.rs:27-44 | a scale that rounding makes at most one part in 256 smaller keeps every value of every block within half the stored step |
| Quantize.ScaleLost | crates/nr-tensor/src/q8.rs:33-35 | a scale that rounds to zero loses the whole block |
| Quantize.QuantizeQ8 | crates/nr-tensor/src/q8.rs:27-44 | every output block is the quantization of its 32 values and avoids -128 |
| Quantize.QuantKRange | crates/nr-tensor/src/kquant.rs:174-177 | no value leaves a signed byte before the cast |
| Quantize.BlockKExact | crates/nr-tensor/src/kquant.rs:157-187 | the stored group sums are exact and fit 16 bits |
| Quantize.QuantKError | crates/nr-tensor/src/kquant.rs:174-185 | dequantizing is off by at most one step |
| Quantize.BlockKError | crates/nr-tensor/src/kquant.rs:157-187 | every value of every block against the scale the block stores: off by at most one step |
| Quantize.PeakExact | crates/nr-tensor/src/kquant.rs:174-185 | the first value of largest magnitude is stored as -128 and comes back exactly |
| Quantize.HalfStepIff | crates/nr-tensor/tests/kquant.rs:66-74 | the error is within half a step, as the tests have it, exactly for values not beyond -255/256 of the largest |
| Quantize.OppositePeak | crates/nr-tensor/tests/kquant.rs:66-74 | the opposite of the largest value is off by a whole step |
| Quantize.QuantizeQ8K | crates/nr-tensor/src/kquant.rs:157-187 | every output block is the quantization of its 256 values, with exact sums |
| Arena.Arena.AllocBytes | crates/nr-runtime/src/arena.rs:37-48 | the aligned start, or nothing and no change, also at the end of the address range |
| Arena.TakeAll | crates/nr-model/src/infer.rs:306-313 | a list of allocations succeeds exactly when its end fits, and then the buffers are aligned, in bounds and disjoint |
| Arena.TotalIs | crates/nr-model/src/infer.rs:334-350 | the 24 buffers hold the computed size less its slack, plus 256 bytes for every unit by which attention is wider than the model |
| Arena.FitsRequired | crates/nr-model/src/infer.rs:334-350 | the computed size suffices for all dimensions with attention no wider than the model |
| Arena.FitsWithMargin | crates/nr-boot/src/app.rs:250-252 | with the application's 8 MiB it suffices up to 32768 units of excess |
| Arena.NeverFits | crates/nr-model/src/infer.rs:344 | past 10 units of excess the computed size is never enough, and past 32778 not with the margin either |
| Arena.EndIs | crates/nr-model/src/infer.rs:306-313 | where any list of allocations ends: its start aligned, plus its total, plus what rounding to 64-byte lines adds |
| Arena.FitsIff | crates/nr-model/src/infer.rs:334-350 | for every shape and every arena size, the 24 buffers fit if and only if the computed size, the padding and 256 bytes per unit of excess stay within the size and the slack |
| Arena.FitsIffSlack | crates/nr-model/src/infer.rs:334-350 | for every shape the computed size suffices if and only if padding and excess stay within the slack of 2560 bytes, and with the margin within slack and margin |
| Arena.FitsIffNarrow | crates/nr-model/src/infer.rs:344 | when both widths are whole blocks of 32, as they are for every model whose products run, the computed size suffices if and only if attention is no wider than the model, and with the margin if and only if at most 32768 wider |
| Arena.FitsIffPages | crates/nr-boot/src/app.rs:250-252 | the exact condition for the arena the application takes, rounded up to whole pages |
| Arena.WideAttention | crates/nr-model/src/infer.rs:479 | a model shape for which the computed size alone is too small |
| Vectors.KnownSize | crates/nr-model/src/infer.rs:334-350 | the computed size of one published model shape is 75705984 bytes |
| Arena.BuildContext | crates/nr-model/src/infer.rs:447-491 | from a fresh arena of any size the 24 buffers are granted exactly when they fit, and are then aligned, in bounds and disjoint |
| Sampler.SiftDown | crates/nr-model/src/sample.rs:38-55 | restores the heap and keeps its contents |
| Sampler.Offer | crates/nr-model/src/sample.rs:36-57 | one more logit keeps the heap a min-heap of the largest seen so far, each with an index that holds it |
| Sampler.TopK | crates/nr-model/src/sample.rs:35-57 | one pass leaves the 64 largest logits, or all of them when there are fewer |
| Sampler.AllFinite | crates/nr-model/src/sample.rs:35-57 | with at least 64 logits no empty place is left |
| Sampler.NucleusSmallest | crates/nr-model/src/sample.rs:71-81 | the cut is the smallest prefix whose mass reaches the share, for shares up to one |
| Sampler.DrawIsInverse | crates/nr-model/src/sample.rs:83-92 | a candidate is taken exactly for draws above the mass before it and at most the mass through it |
| Sampler.PickInNucleus | crates/nr-model/src/sample.rs:71-92 | the candidate picked lies in the smallest prefix whose mass reaches the share |
| Sampler.PickFinite | crates/nr-model/src/sample.rs:71-93 | whatever the share, an empty place is never picked |
| Temperature.PickScaled | crates/nr-model/src/sample.rs:64-93 | multiplying all logits and the temperature by one positive factor changes no pick, whatever the exponential |
| Temperature.PickShifted | crates/nr-model/src/sample.rs:64-93 | nor does adding one number to all logits |
| Temperature.HalvedSquares | crates/nr-model/src/sample.rs:69-71 | under an exponential, halving the temperature squares every weight |
| Temperature.NucleusIff | crates/nr-model/src/sample.rs:74-84 | for shares from zero to one, the nucleus length is the least whose mass is at least the share of the whole |
| Temperature.PickIff | crates/nr-model/src/sample.rs:86-93 | a candidate is picked if and only if the uniform number times the nucleus mass lies above the mass before it and not above the mass through it |
| Temperature.NoShare | crates/nr-model/src/sample.rs:74-93 | a share of nothing picks the largest logit |
| Temperature.SixtyFour | crates/nr-model/src/sample.rs:35-57 | with 64 logits or more the candidates are 64 logits |
| Temperature.FirstNumber | crates/nr-model/src/sample.rs:23-30 | the three steps of the generator from one, ending at 0x40822041 |
| Sampler.Sampler.NextUniform | crates/nr-model/src/sample.rs:23-30 | the generator never reaches zero and the number is below one |
| Sampler.Sampler.Argmax | crates/nr-tensor/src/vec.rs:80-90 | the first index of a largest logit, and 0 for an empty list |
| Sampler.Sampler.Sample | crates/nr-model/src/sample.rs:32-94 | without temperature a largest logit and no step of the generator, otherwise one step and a candidate drawn from the nucleus of the 64 largest; 0 for an empty list |

## Left out

- Infer.InferCtx.constructor: takes the configuration with its shapes already checked and with key heads that divide the query heads; the tensor lookups and shape errors of infer.rs lines 357-425, the rope frequencies and the 32-bit products of the dimensions are not modelled.
- Infer.InferCtx.Forward: the window assertion and the bounds panics of the source (position, token id) are preconditions, and so is that the key heads divide the query heads, without which the claim of batched prefill is false (Overlap.ChunkIsDecodeIff). Runs without it are modelled by functions on the flat cache in FlatForward and not by the methods; there a window past the end of the cache is empty, where the source stops.
- Interchange.DecodeAppend: on the cache of rows, so for head counts that divide; FlatForward.FlatDecodeAppend has no such condition.
- Forward.WindowsFitIff: stated for at least one key head and at least as many query heads; otherwise the source divides by zero.
- Infer.InferCtx.PrefillChunk: likewise for its two assertions and the token ids.
- Kernels.DotX4: models the sharing and the order of accumulation of the four-wide AVX2 kernels, whose integer lanes are those proved for the one-wide kernels; the four-wide NEON kernels are modelled in full.
- Kernels.Matmul: runs the ranges one after another; that any schedule of the pool with any interleaving of the stores leaves the same output is PoolProducts.BatchFinished.
- Kernels.Matvec: likewise, with PoolProducts.VectorFinished.
- Avx2.DotQ8Avx2: rounding of the float accumulation is not modelled in the AVX2 kernels, which the source compares with a tolerance.
- Singles.FloatDot4: a stored scale is a finite number; infinities and NaNs among the scales are not modelled.
- Quant.PlanesRoundTrip: of the reference quantizers only the packing is modelled, not their search for scales.
- Quantize.QuantizeQ8: half-precision rounding of the scale is an arbitrary function; Quantize.Block8ErrorIff says for which scales the error stays within half a step.
- Pool.LifetimeSafety: the pool is a step system on values rather than an object, because its methods interleave; wrap-around of seq and of the cursor is ignored, and all accesses are sequentially consistent as in the source.
- Verify.Load: file system errors, progress reports and the sealing flag are left out; a read is an arbitrary function of position and size that delivers at most what was asked.
- Verify.MetaDamage: damage across the border of two groups of bytes is covered by Verify.FourByteDamage.
- Verify.FourByteDamage: says when damage goes unnoticed and not which error is reported, and only for damage that keeps the tensor count and does not change the metadata checksum together with the metadata behind it; such damage can pass (Damage.CountUnguarded, Damage.SumAndBlobUnguarded).
- Converter.Convert: takes header values, the 48 name bytes, the tokenizer blob and the tensors as given.
- Build.Build: panics of the builder become the answer nothing; the checks of the source's metadata keys (tokenizer.rs lines 47-89) are left out.
- Build.BuiltParses: assumes that counts and pool size are below 2 to the 32, where the builder would cut them off; the library's stable sort is an insertion sort.
- Build.BuiltIsFaithful: likewise, as are the other theorems about built blobs.
- Build.BuiltIsReference: for merge lists that name no pair twice; otherwise Build.BuiltIsFinal holds, and Blob.TwiceDiffers shows that no more than the order of the table is not enough.
- Pretok.MatchFirst: letter, number and whitespace classes are arbitrary predicates with the few facts the proof needs; equality with the Unicode classes of the pattern is not claimed.
- Template.UniqueConversation: only control flags of the specials are assumed; distinctness of the special ids is not needed.
- Stack.Stack.ReceiveFrame: frames are byte lists and addresses byte lists of fixed length; formatting of addresses is left out.
- Checksum.PartialSum: wraps as a release build does; a build with overflow checks stops instead.
- Arena.Arena.AllocBytes: any positive alignment is modelled with a remainder, where the source masks with a power of two; the memory itself is not modelled.
- Arena.BuildContext: arenas within 64 bytes of the whole address range are excluded, as none exists.
- Worked.PromptIs: models of width 32 with four query heads over two key heads, each holding one number; other shapes are covered by the theorems of Interchange only.
- Rendering.PromptBytes: for a blob of the builder; the bytes of the opening token of Llama 3 are those of the id given by number.
- Sampler.Sampler.Sample: logits are finite exact reals, so rounding and NaNs are not modelled. The library's unstable sort is any sort by descending value.
- The 8-bit and half-precision conversions, rope, softmax and norm routines, and the mathematics library: arbitrary deterministic functions where prefill uses them.
- The GGUF reader, quantization labels and command line of the converter: they prepare the values taken as given here.
- Firmware access, graphics, user interface, fan control, the chat loop, the gateway's HTTP and JSON handling, disk images and installers: no algorithm that the properties above need.
- Processor feature detection and instruction encodings: only the arithmetic of each instruction is modelled.
