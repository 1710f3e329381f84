# Verified models of the training stack

This project models, in Dafny, the parts of the repository whose correctness does not show from
reading one function, and proves what they are for:

* **weight transfer** from the trainer to the rollout workers: splitting weights into chunks,
  packing chunks into buckets, the NIXL relay chain and the NCCL broadcast as concurrent protocols
  with double buffering, unpacking and merging;
* **activation offloading**: the window map, the asynchronous handler as a state machine and as the
  object it is, its agreement with a plain map from tags to tensors, and what it keeps in memory;
* **worked arithmetic solutions**: chains of modular operations rendered as compressed, backward and
  hierarchical text, read back by a lexer and a parser with ordinary precedence;
* **replay buffer**: workers, queue, poll thread and sampler in every interleaving, and the
  broadcast of one score per session;
* **checkpoint layouts**: the pipeline sharding search, the fused attention layout and its
  tensor-parallel merge, and block expansion;
* **batch table**: padding, chunking, splitting, concatenating and repeating rows.

`dafny verify dfyconfig.toml` checks everything.

## How the models are built

| file | models |
|---|---|
| `Prelude.dfy`, `Decimal.dfy`, `RowBlocks.dfy` | shared vocabulary: results, rounding, numerals, blocks of rows |
| `WeightChunks.dfy`, `MergeAcceptance.dfy`, `BucketPacking.dfy` | split and merge of weights; which streams the merge accepts; next-fit packing and the send loop |
| `DoubleBuffer.dfy` | rank 0's local state, shared by both engines |
| `NixlTopology.dfy`, `NixlRelay.dfy`, `NixlSafety.dfy`, `NixlProgress.dfy` | the relay chain: who talks to whom, the steps, safety, progress |
| `NcclBroadcast.dfy`, `NcclProgress.dfy` | the broadcast engine: steps, safety, progress |
| `OffloadWindow.dfy`, `OffloadModel.dfy`, `OffloadTransparency.dfy`, `OffloadResidency.dfy`, `OffloadPlacement.dfy`, `OffloadFaults.dfy`, `OffloadDedup.dfy`, `OffloadHandler.dfy` | the offload handler: window map, operations on a value, refinement of the plain map, when a group is really offloaded, where every tensor is at every point, what is refused, what sharing a storage key costs, and the class |
| `ExprText.dfy`, `ChainArithmetic.dfy`, `LinearText.dfy` | reading arithmetic text; chains and linear forms modulo m; printing linear forms |
| `ComposedSolution.dfy`, `BackwardSolution.dfy`, `BalancedSolution.dfy`, `BalancedReading.dfy` | the three solution writers, and what each of their sentences says |
| `SessionScores.dfy`, `ReplayBuffer.dfy`, `ReplayProtocol.dfy` | output keys and session grouping; the buffer class; the polling protocol |
| `PipelineShards.dfy`, `QkvLayout.dfy`, `BlockExpansion.dfy` | checkpoint layouts |
| `BatchRows.dfy` | the batch table |

The engines are step relations over explicit buffer contents, in-flight operations and FIFO queues.
A transfer copies single bytes, in any order, at any time between its start and its completion, so
a write to a buffer that is still being read would be seen. Loops and classes of the source are
methods and classes here, each proved against a function or predicate about which the lemmas speak.
A fault value stands for a failing assertion or a raised exception.

Assumptions on the environment: the bucket size is positive; weight names are distinct; a tensor is
contiguous, as flattening it with `view(-1)` demands, and has as many bytes as its shape and dtype say;
links are reliable FIFO queues; the consumer of a receiver keeps no view of a bucket after asking for the
first item of the next; buffers are allocated at offset 0 of their storage, and viewing uint8 memory as a
wider dtype is refused exactly when it does not start at a multiple of the item size; the bytes of NCCL
broadcasts reach each receiver through a FIFO channel, and rank 0's operation is over at any time after it
has sent all of them, whether or not a receiver holds them; for the offload handler, L forward commits are followed by L backward commits, pushes of a
layer come before its forward commit, pops after its backward commit, and each tag is popped once; for the
replay buffer, a uid is registered once and is not itself an output key, listing the queue takes a
consistent snapshot, and one batch put is atomic.

## What was found

Where a promise holds only under a condition, the condition is part of the result:

* splitting drops weights without bytes, so the round trip returns exactly the non-empty weights
  (`MergeUndoesSplit`);
* a weight that fits one bucket is viewed in place as its dtype, but buckets are packed at raw byte
  offsets: the weights come back if and only if each such weight happens to be placed at a multiple of
  its item size (`WeightRoundTrip`, and `EveryRankReceivesTheWeights` of both engines).  A bfloat16 and a
  float32 in one bucket show the failure (`MixedDtypesAreMisplaced`); it cannot occur when all weights
  have one dtype whose item size divides the bucket size (`OneDtypeIsWellPlaced`), or more generally are
  made of units that every item size divides (`UnitsAreWellPlaced`);
* the NIXL topology is the relay chain, and is accepted, exactly for two or more rollout workers
  (`ChainNeedsTwoRolloutWorkers`);
* with as many offload groups as layers, only the first group is ever really offloaded
  (`OffloadedAtEndOfForward`, and for every point of training `HostCopies`);
* at most two groups are in device memory exactly while no tensor of a layer above the current one
  is still to be popped (`TwoGroupsInDeviceMemory`);
* offloading is transparent exactly when, in every layer that is really offloaded, tensors pushed under one
  storage key have equal flattened contents (`TransparentExactly`; for one group, `DedupIsExact`); otherwise
  a tensor is popped with the content of the first of its key (`DedupAnswers`, `SecondOfKeyIsLost`), as a
  tensor and its transpose show (`TransposeIsLost`);
* block expansion takes and renames the keys of every layer rightly exactly when no parameter's name has the
  number of a layer between dots but for its own layer number (`PassesAreRight`); numbered experts show the
  failure (`ExpertsGoAstray`);
* with padding enabled, n > 0 rows with tensors are chunked for k workers if and only if chunks of
  ceil(n/k) rows make k of them (`ChunkBatch`); five rows for four workers show the failure
  (`FiveRowsForFour`);
* the pipeline search finds a list exactly when `ceil(L/p) * (p - 2) + 2 <= L`
  (`GetDynamicPipelineShards`); five layers on four ranks show the failure (`FiveLayersOnFourRanks`);
* asked for a batch size instead of a step, the replay buffer returns at once, with an empty batch
  (`BatchSizeModeIsEmpty`).

## Model

| member | source | states |
|---|---|---|
| `WeightChunks.SplitWeightChunks` | verl/verl/checkpoint_engine/base.py:507-521 | the loop cuts the stream exactly as the recursive specification does, weight by weight, in order |
| `WeightChunks.SplitIsWellSized` | verl/verl/checkpoint_engine/base.py:509-521 | every chunk is non-empty, at most one bucket long, carries its own size, and is a full bucket unless it is the last of its weight |
| `WeightChunks.MergeWeightChunks` | verl/verl/checkpoint_engine/base.py:536-563 | the loop over one reused merge buffer agrees, fault for fault, with merging on values, the refused view of a misaligned slice included |
| `WeightChunks.MergeUndoesSplit` | verl/verl/checkpoint_engine/base.py:507-563 | merging the split of any weight list gives back the weights that have bytes, in order, and nothing is raised; all weights come back if and only if none is empty |
| `WeightChunks.MergeNeedsAlignment` | verl/verl/checkpoint_engine/base.py:541-546 | wherever the chunks lie, merging them gives the non-empty weights if and only if every weight that fits one bucket starts at a multiple of its item size; otherwise the view raises |
| `WeightChunks.MergeOfPrefix` | verl/verl/checkpoint_engine/base.py:536-563 | at every point of the stream the weights given so far are a prefix of the list, unless a misaligned one has come and was refused |
| `MergeAcceptance.MergeAcceptsExactly` | verl/verl/checkpoint_engine/base.py:524-563 | a stream of any chunks is merged to the end, into these weights, if and only if it consists of them: each that fits one bucket in one aligned chunk, each larger one in consecutive pieces under its own name |
| `BucketPacking.SendLoop` | verl/verl/checkpoint_engine/nccl_checkpoint_engine.py:244-294 | with two swapped arrays, the buckets handed over, read from the array at that moment, are the next-fit buckets; the name and size assertions hold |
| `BucketPacking.YieldBucket` | verl/verl/checkpoint_engine/nccl_checkpoint_engine.py:344-347 | slicing a buffer that holds a bucket yields the bucket's chunks in order, each with its offset |
| `BucketPacking.BucketsAreGood` | verl/verl/checkpoint_engine/nccl_checkpoint_engine.py:250-279 | in every bucket the chunks tile a prefix of at most B bytes |
| `BucketPacking.BucketsCloseWhenFull` | verl/verl/checkpoint_engine/nccl_checkpoint_engine.py:250-279 | a bucket is handed over only when the next chunk does not fit |
| `BucketPacking.TilesMeaning` | verl/verl/checkpoint_engine/nccl_checkpoint_engine.py:273-279 | tiling means: each entry starts where the one before ends, so entries are disjoint and together are the payload |
| `BucketPacking.UnpackUndoesPack` | verl/verl/checkpoint_engine/nccl_checkpoint_engine.py:250-361 | slicing all buckets in order gives the chunk stream back, chunk i at the offset that next-fit computes from the sizes alone |
| `BucketPacking.OpenNamesAreDistinct` | verl/verl/checkpoint_engine/nccl_checkpoint_engine.py:273-277 | names in an open bucket are pairwise distinct |
| `BucketPacking.NamesNeverCollide` | verl/verl/checkpoint_engine/nccl_checkpoint_engine.py:274 | two chunks of one weight never share a bucket, so the name assertion never fires |
| `BucketPacking.SplitKeepsBytes` | verl/verl/checkpoint_engine/base.py:507-521 | the chunks hold exactly the bytes of the weights |
| `BucketPacking.WeightsPackTightly` | verl/verl/checkpoint_engine/nccl_checkpoint_engine.py:250-279 | n buckets for `total` > 0 bytes satisfy (n - 1) * B < 2 * total |
| `BucketPacking.WeightRoundTrip` | verl/verl/checkpoint_engine/base.py:507-563 | split, pack, slice, merge, for every list and bucket size: the non-empty weights are returned if and only if each weight that fits one bucket is placed at a multiple of its item size, otherwise the view raises |
| `BucketPacking.UnitsAreWellPlaced` | verl/verl/checkpoint_engine/nccl_checkpoint_engine.py:250-279 | with a unit d that divides every weight's size, is a multiple of every item size and divides the bucket size unless no weight needs two buckets, every weight is well placed |
| `BucketPacking.OneDtypeIsWellPlaced` | verl/verl/checkpoint_engine/nccl_checkpoint_engine.py:250-279 | so it is with weights of one dtype whose item size divides the bucket size |
| `BucketPacking.MixedDtypesAreMisplaced` | verl/verl/checkpoint_engine/base.py:544 | a 2-byte weight before a 4-byte one in a bucket of 6 bytes: the receiver's view raises |
| `NixlTopology.ChainNeedsTwoRolloutWorkers` | verl/verl/checkpoint_engine/nixl_checkpoint_engine.py:288-331 | the argument lists pass the length checks and the rank assertions, connect each rank to its neighbours, and tell it the number of ranks, if and only if there are at least two rollout workers |
| `NixlTopology.InitChecksNeighbours` | verl/verl/checkpoint_engine/nixl_checkpoint_engine.py:307-331 | with two ranks or more the assertions hold exactly when a rank has a predecessor unless it is the first, and a successor unless it is the last |
| `NixlSafety.StepKeepsInv` | verl/verl/checkpoint_engine/nixl_checkpoint_engine.py:393-519 | every step of any rank keeps the invariant over buffers, reads in flight and both queues of every link |
| `NixlSafety.NoOverwriteInUse` | verl/verl/checkpoint_engine/nixl_checkpoint_engine.py:393-519 | in every reachable state no step writes a buffer that the successor was offered and has not finished reading, or that views are being yielded from |
| `NixlSafety.OnlyWrites` | verl/verl/checkpoint_engine/nixl_checkpoint_engine.py:393-519 | the only writes are rank 0 filling its send buffer and a read filling the buffer it was begun with |
| `NixlSafety.SendBufIsStableUntilSwap` | verl/verl/checkpoint_engine/nixl_checkpoint_engine.py:466-500 | over any run of all ranks without a swap of rank i, its send buffer stays the same buffer with the same bytes, although reads write the buffer they captured when they began |
| `NixlSafety.YieldedViewsAreStable` | verl/verl/checkpoint_engine/nixl_checkpoint_engine.py:484-487 | over any run between two requests of the consumer no view it holds changes |
| `NixlSafety.NoAssertionFires` | verl/verl/checkpoint_engine/nixl_checkpoint_engine.py:128-235 | every notification carries the key waited for and no name repeats in a bucket, in every reachable state |
| `NixlSafety.EveryRankYieldsTheChunks` | verl/verl/checkpoint_engine/nixl_checkpoint_engine.py:456-519 | in every interleaving a rank has yielded a prefix of rank 0's chunks with their contents and offsets, and all of them once it is finished |
| `NixlSafety.EveryRankReceivesAPrefix` | verl/verl/checkpoint_engine/nixl_checkpoint_engine.py:435-519 | in every reachable state every rank has been given a prefix of the trainer's non-empty weights, unless a misplaced one has come and was refused |
| `NixlSafety.EveryRankReceivesTheWeights` | verl/verl/checkpoint_engine/nixl_checkpoint_engine.py:371-519 | when all ranks have yielded everything, merging it gives the trainer's non-empty weights if and only if rank 0 placed each that fits one bucket at a multiple of its item size |
| `NixlSafety.NeighboursStayClose` | verl/verl/checkpoint_engine/nixl_checkpoint_engine.py:466-519 | completed buckets of neighbours satisfy done(r+1) <= done(r) <= done(r+1) + 2 |
| `NixlProgress.NeverStuck` | verl/verl/checkpoint_engine/nixl_checkpoint_engine.py:128-235 | in every reachable unfinished state of a chain of any length some rank can move |
| `NixlProgress.StepDecreases` | verl/verl/checkpoint_engine/nixl_checkpoint_engine.py:393-519 | a measure over all ranks falls with every step |
| `NixlProgress.MaximalRunsFinish` | verl/verl/checkpoint_engine/nixl_checkpoint_engine.py:371-519 | every run is at most as long as the initial measure, and one that cannot be prolonged has finished all ranks |
| `NcclBroadcast.StepKeepsInv` | verl/verl/checkpoint_engine/nccl_checkpoint_engine.py:77-361 | every step keeps the invariant that ties rank 0's operation, the metadata and broadcasts on their way, and the call each receiver is in |
| `NcclBroadcast.BroadcastBufferIsStable` | verl/verl/checkpoint_engine/nccl_checkpoint_engine.py:250-294 | the sender never changes a buffer with a broadcast in flight |
| `NcclBroadcast.SendBufIsStableUntilSwap` | verl/verl/checkpoint_engine/nccl_checkpoint_engine.py:331-361 | over any run of all ranks without a swap of receiver i, its send buffer stays the same buffer with the same bytes, although operations write the buffer they were created with |
| `NcclBroadcast.YieldedViewsAreStable` | verl/verl/checkpoint_engine/nccl_checkpoint_engine.py:313-361 | over any run between two requests of the consumer no view it holds changes |
| `NcclBroadcast.NoAssertionFires` | verl/verl/checkpoint_engine/nccl_checkpoint_engine.py:273-274 | the fit and name assertions hold in every reachable state |
| `NcclBroadcast.EveryRankYieldsTheChunks` | verl/verl/checkpoint_engine/nccl_checkpoint_engine.py:313-361 | each receiver yields the sender's chunk sequence, in order and at the offsets of packing: a prefix always, all of it at the end |
| `NcclBroadcast.EveryRankReceivesAPrefix` | verl/verl/checkpoint_engine/nccl_checkpoint_engine.py:297-361 | in every reachable state every rank has been given a prefix of the trainer's non-empty weights, unless a misplaced one has come and was refused |
| `NcclBroadcast.EveryRankReceivesTheWeights` | verl/verl/checkpoint_engine/nccl_checkpoint_engine.py:230-361 | when all receivers have yielded everything, merging it gives the trainer's non-empty weights if and only if rank 0 placed each that fits one bucket at a multiple of its item size |
| `NcclBroadcast.NeverStuck` | verl/verl/checkpoint_engine/nccl_checkpoint_engine.py:77-99 | in every reachable unfinished state some rank can move, and which |
| `NcclProgress.StepDecreases` | verl/verl/checkpoint_engine/nccl_checkpoint_engine.py:230-361 | a measure over all ranks falls with every step |
| `NcclProgress.MaximalRunsFinish` | verl/verl/checkpoint_engine/nccl_checkpoint_engine.py:230-361 | every run is bounded, and one that cannot be prolonged has finished all ranks |
| `OffloadWindow.BuildWindowMap` | verl/verl/utils/activation_offload.py:244-257 | the loop with its running constant computes the closed form of every window, for exactly the groups 0 .. G-1 |
| `OffloadWindow.WindowIncreases` | verl/verl/utils/activation_offload.py:247-257 | windows are strictly increasing for 1 <= G <= L |
| `OffloadWindow.WindowOfLast` | verl/verl/utils/activation_offload.py:247-257 | the last window is the last layer |
| `OffloadWindow.WindowsAreEven` | verl/verl/utils/activation_offload.py:247-257 | the layers are dealt out to the groups evenly: the numbers differ by one at most, the larger ones first |
| `OffloadWindow.WindowAfterOwnLayer` | verl/verl/utils/activation_offload.py:247-257 | no group's window precedes its own layer |
| `OffloadWindow.WindowOfDefaultConfiguration` | verl/verl/utils/activation_offload.py:543 | with G = L - 1 the window of group i is layer i + 1 |
| `OffloadTransparency.StepRefines` | verl/verl/utils/activation_offload.py:263-395 | from related states every legal push, commit or pop succeeds, answers like the plain map, and leaves related states |
| `OffloadTransparency.OffloadHolds` | verl/verl/utils/activation_offload.py:298-317 | offloading a group whose tensors are on the device loses no value |
| `OffloadTransparency.BulkReloadHolds` | verl/verl/utils/activation_offload.py:355-371 | reloading a mapped group succeeds and brings every value back |
| `OffloadTransparency.OffloadIsTransparent` | verl/verl/utils/activation_offload.py:263-395 | for any 1 <= G <= L, any number of iterations and any tensors: no assertion fails, every lookup is in range, and every pop returns the value pushed |
| `OffloadTransparency.IterationsReset` | verl/verl/utils/activation_offload.py:373-395 | after any number of complete iterations the handler is in its initial state |
| `OffloadResidency.OffloadedAtEndOfForward` | verl/verl/utils/activation_offload.py:319-345 | at the end of any forward pass a tensor of group g is a host copy if and only if g < G and (g = 0 or G < L) |
| `OffloadPlacement.DeviceReferences` | verl/verl/utils/activation_offload.py:263-345 | at every point, for any 1 <= G <= L: the handler has an entry for exactly the saved tensors of groups below G, and holds the saved tensor itself exactly while the forward pass has not passed the group's window |
| `OffloadPlacement.ReferencesByCount` | verl/verl/utils/activation_offload.py:331-345 | in the forward pass: the tensors of groups from offloaded_group_count on are held, those of groups below it are not |
| `OffloadPlacement.HostCopies` | verl/verl/utils/activation_offload.py:298-395 | at every point, for any 1 <= G <= L: a tensor is a host copy if and only if its group is really offloaded and, in the forward pass, its offload has begun or, in the backward pass, its window is still to come |
| `OffloadPlacement.TwoGroupsInDeviceMemory` | verl/verl/utils/activation_offload.py:501-543 | with G = L - 1, at every point only the current group and the one below it are in device memory, if and only if no tensor of a layer above the current one is still to be popped; in the forward pass there never is one |
| `OffloadResidency.ReloadedInTime` | verl/verl/utils/activation_offload.py:373-395 | for any G: in the backward pass no tensor of a layer at or above the current one is still a host copy |
| `OffloadFaults.OffloadTwiceIsRefused` | verl/verl/utils/activation_offload.py:298-317 | a group that has tensors cannot be offloaded again before it is reloaded |
| `OffloadFaults.PopBeforeReloadIsRefused` | verl/verl/utils/activation_offload.py:286-317 | a tensor of an offloaded group is not popped |
| `OffloadFaults.ReloadTwiceIsRefused` | verl/verl/utils/activation_offload.py:355-371 | a group is not reloaded twice |
| `OffloadFaults.PopTwiceIsRefused` | verl/verl/utils/activation_offload.py:286-296 | a tag is not popped twice |
| `OffloadFaults.PushTwiceIsRefused` | verl/verl/utils/activation_offload.py:272-279 | a tag is not given twice |
| `OffloadFaults.ExtraForwardIsRefused` | verl/verl/utils/activation_offload.py:319-352 | after L forward commits another one raises, because every window has passed |
| `OffloadResidency.DedupIsExact` | verl/verl/utils/activation_offload.py:298-317 | offloading then reloading a group returns every tensor if and only if tensors sharing a key have equal contents |
| `OffloadResidency.SecondOfKeyIsLost` | verl/verl/utils/activation_offload.py:263-395 | two tensors of one key pushed, committed forward and backward: no fault, and the second is popped with the content of the first |
| `OffloadResidency.TransposeIsLost` | verl/verl/utils/activation_offload.py:263-395 | a tensor and its transpose share a key: over a whole iteration the transpose is popped with the other content, unlike the plain map's, without a fault |
| `OffloadDedup.StepSim` | verl/verl/utils/activation_offload.py:263-395 | whatever shares a key, every event keeps the handler in step with the plain map and with one that keeps the first tensor of each key in the layers really offloaded; the only fault is a view that does not fit |
| `OffloadDedup.DedupAnswers` | verl/verl/utils/activation_offload.py:298-371 | over any run, without assuming that keys agree, every pop has its own shape and the content of the first tensor of its key if its layer is really offloaded, its own content otherwise |
| `OffloadDedup.TransparentExactly` | verl/verl/utils/activation_offload.py:263-395 | over a run that pops all it pushed, no fault is raised and every answer is the plain map's if and only if, in each layer really offloaded, tensors of one key have one content |
| `OffloadDedup.TransparentIfKeysAgree` | verl/verl/utils/activation_offload.py:263-395 | and over any run the handler is transparent if they do; the other layers may share keys as they like |
| `OffloadHandler.AsyncDoubleBufferGroupOffloadHandler.constructor` | verl/verl/utils/activation_offload.py:224-261 | the object starts in the initial state with the computed window map |
| `OffloadHandler.AsyncDoubleBufferGroupOffloadHandler.TensorPush` | verl/verl/utils/activation_offload.py:263-284 | a stray or unchecked tensor is its own tag and nothing changes; otherwise the fields change as Push says, or the tag is taken |
| `OffloadHandler.AsyncDoubleBufferGroupOffloadHandler.TensorPop` | verl/verl/utils/activation_offload.py:286-298 | a tensor is returned as it is; a tag is removed from both dictionaries and its tensor returned, or the fault says why not |
| `OffloadHandler.AsyncDoubleBufferGroupOffloadHandler.BulkOffloadGroup` | verl/verl/utils/activation_offload.py:298-317 | the in-place loop replaces exactly the group's tensors by tuples and registers the first tensor of each key |
| `OffloadHandler.AsyncDoubleBufferGroupOffloadHandler.BulkReloadGroup` | verl/verl/utils/activation_offload.py:355-371 | the in-place loop turns exactly the group's tuples back into views of its copies, and unregisters the group |
| `OffloadHandler.AsyncDoubleBufferGroupOffloadHandler.FreeGroup` | verl/verl/utils/activation_offload.py:335-338 | exactly the group's device references are dropped |
| `OffloadHandler.AsyncDoubleBufferGroupOffloadHandler.OnGroupCommitForward` | verl/verl/utils/activation_offload.py:319-352 | the fields change as CommitForward says, fault for fault |
| `OffloadHandler.AsyncDoubleBufferGroupOffloadHandler.OnGroupCommitBackward` | verl/verl/utils/activation_offload.py:373-395 | the fields change as CommitBackward says |
| `OffloadHandler.Train` | verl/verl/utils/activation_offload.py:224-395 | driving the object through any legal training run, every call succeeds and the answers are the plain map's |
| `ChainArithmetic.GenerateChain` | src/generator.py:227-246 | the value loop produces, for any choices, the chain of operations reduced modulo mod |
| `ChainArithmetic.ValuesAreFolds` | src/generator.py:239-244 | value j is the left-to-right fold from value i, whether reduced at every step or at the end |
| `ChainArithmetic.CanonicalAgrees` | src/generator.py:505-511 | the canonical form lies in 0 <= a < mod, mod//2 - mod < b <= mod//2 and agrees with the form modulo mod at every point |
| `ChainArithmetic.CanonicalizeDecidesAgreement` | src/generator.py:505-511 | two forms have the same canonical form if and only if they agree modulo mod everywhere |
| `ChainArithmetic.FormIsUnique` | src/generator.py:505-511 | a run of operations has only one canonical form |
| `ChainArithmetic.FormOfBoth` | src/generator.py:616-622 | the forms of two runs, one substituted in the other and reduced, are the form of both runs |
| `Decimal.DigitsIsTheNumeral` | src/generator.py:487-502 | a printed number is the one numeral that reads back as it and has no leading zero |
| `ExprText.LexConcat` | src/generator.py:356-361 | texts may be put together token by token when no number runs across the seam |
| `ExprText.ParensMakeFactor` | src/generator.py:358 | a parenthesised sum is read as one factor of the sum's value |
| `ExprText.Juxtaposed` | src/generator.py:493-494 | a factor written directly after a term multiplies it, as in "3AB" |
| `LinearText.FormatLinearReads` | src/generator.py:487-502 | the text of a linear form is read as a * v + b for any variable or parenthesised text of value v |
| `LinearText.FormatLiteralReads` | src/generator.py:590-605 | the text with a literal is read as a * literal + b |
| `LinearText.FormatLinearIsInjective` | src/generator.py:487-502 | the text of a linear form determines a and b |
| `LinearText.FormatLinearTokens` | src/generator.py:487-502 | token by token: no coefficient 1, no coefficient 0, no constant 0 but as the whole text |
| `LinearText.FormatLiteralTokens` | src/generator.py:590-605 | the same for the text with a literal |
| `ComposedSolution.Breakpoints` | src/generator.py:334-338 | the loop yields ceil(op/n) + 1 breakpoints, the g-th being min(g * n, op) |
| `ComposedSolution.ImplicitBreakpoints` | src/generator.py:806-813 | the implicit form has the same breakpoints for op >= 1, and [0, 0] for op = 0 |
| `ComposedSolution.BreakpointsAreUnique` | src/generator.py:334-338 | the lists of the compressed forms coincide: there is only one list of breakpoints for op and max_nest |
| `ComposedSolution.GroupSizes` | src/generator.py:334-338 | groups start at 0, end at op, and have max_nest operations except perhaps the last, which has at most that many |
| `ComposedSolution.CoarserBreakpoints` | src/generator.py:334-338 | the breakpoints for k * m are among those for m |
| `ComposedSolution.InlineGroup` | src/generator.py:362-370 | the loop writes the inlined expression of the specification |
| `ComposedSolution.InlineReads` | src/generator.py:362-370 | the inlined text, parentheses only where written, is read under ordinary precedence as the left-to-right fold |
| `ComposedSolution.InlineKeepsOrder` | src/generator.py:362-370 | without its parentheses the text is the start followed by the operations in their order, and it has exactly one pair of parentheses for every sum that is multiplied |
| `ComposedSolution.GroupValue` | src/generator.py:382-389 | the running value is congruent to the fold |
| `ComposedSolution.ComposedForward` | src/generator.py:325-399 | the sentences are those of the specification at the breakpoints, and each ends in the chain's value there |
| `ComposedSolution.ComposedTextKeepsMeaning` | src/generator.py:346-396 | for every value of the previous variable the printed expression is the fold, and from the chain's value it is the value at the breakpoint modulo mod |
| `ComposedSolution.ComposedSubstitutes` | src/generator.py:346-396 | the second expression of a sentence is the first with the previous variable replaced by its value, and the third is the value at the breakpoint |
| `ComposedSolution.ComposedPartsAreTrue` | src/generator.py:346-396 | every sentence is a true chain of equalities |
| `BackwardSolution.SubstituteAndReduce` | src/generator.py:560-568 | substituting one operation and reducing again is the canonical form of the longer run |
| `BackwardSolution.FormReachesTarget` | src/generator.py:531-568 | at every k the form at values[k] is the target's value modulo mod |
| `BackwardSolution.RightForward` | src/generator.py:514-587 | the answer computed is values[-1]; for any values of the variables, the sentence of step k reads as the canonical form of the operations from k on, in variable k; then with operation k substituted; then as the canonical form from k - 1 on, in variable k - 1; the last one ends in the form at values[0] and values[-1] |
| `BackwardSolution.StepSays` | src/generator.py:551-587 | the three expressions of a step, whatever the variables stand for |
| `BackwardSolution.BackwardTextIsTrue` | src/generator.py:539-587 | every printed equality, closing expressions included, is true modulo mod |
| `BalancedSolution.ChainRightIsFold` | src/generator.py:608-631 | the balanced tree of compositions agrees with applying the segments left to right, from any start |
| `BalancedSolution.ResolveIsFold` | src/generator.py:634-664 | resolving over the tree agrees with the left-to-right fold |
| `BalancedSolution.BalanceChainRight` | src/generator.py:608-631 | n segments give a canonical form and n - 1 lines |
| `BalancedSolution.BalanceResolve` | src/generator.py:634-664 | n segments give n lines and a reduced value |
| `BalancedSolution.ChainRightLinesAreTrue` | src/generator.py:608-631 | every line the fold emits is true modulo mod |
| `BalancedSolution.ResolveLinesAreTrue` | src/generator.py:634-664 | every line the resolution emits is true modulo mod |
| `BalancedSolution.BitTestIsPowerOfTwo` | src/generator.py:670 | `op & (op - 1)` is 0 exactly for powers of two |
| `BalancedSolution.BalanceForward` | src/generator.py:667-799 | refused if and only if op < 2 or op is no power of two; otherwise the sentences are those of the specification, op + op/2 of them |
| `BalancedSolution.BalancedTextIsTrue` | src/generator.py:667-799 | every sentence of the hierarchical solution is true modulo mod |
| `BalancedReading.ChainRightSays` | src/generator.py:608-631 | for any values of the variables, every line of the right-hand fold reads as the canonical forms of its two runs of operations, and the lines are those of the balanced tree |
| `BalancedReading.ResolveLinesSay` | src/generator.py:634-664 | every line of the resolution reads as the canonical form of its run, then that form at the known value, then the value reached; the lines are those of the balanced tree |
| `BalancedReading.PairPartsSay` | src/generator.py:708-793 | the two sentences of every pair: the operation on the variable before, its substitution with parentheses only around a sum, and the canonical forms |
| `BalancedReading.BalancedPartsSay` | src/generator.py:667-799 | every sentence of the hierarchical solution, from the first value to the last line of the tree |
| `BalancedSolution.BalancedValueIsLast` | src/generator.py:795-799 | the value the tree resolves to is values[-1] |
| `SessionScores.ParseUndoesFormat` | verl/verl/trainer/main_ppo_sync.py:155-158 | splitting a key at its last two underscores gives back uid, session and index for any uid |
| `SessionScores.ParsesExactly` | verl/verl/trainer/main_ppo_sync.py:155-158 | a key parses into uid, session and index if and only if it is made of them |
| `SessionScores.OutputKeysAreDistinct` | verl/verl/trainer/main_ppo_sync.py:422 | different outputs have different keys |
| `SessionScores.FindFinalSessions` | verl/verl/trainer/main_ppo_sync.py:152-162 | succeeds if and only if every key parses; each session seen is recorded once with its final row |
| `SessionScores.LocalIndices` | verl/verl/trainer/main_ppo_sync.py:164-170 | one index per session, its final row, and every row is sent to its own session's |
| `SessionScores.BroadcastScores` | verl/verl/trainer/main_ppo_sync.py:152-191 | every row receives, token by token, the score of the final row of its own session times its mask |
| `SessionScores.MaskSelects` | verl/verl/trainer/main_ppo_sync.py:185-187 | a token with mask 1 gets the score, a token with mask 0 gets nothing |
| `SessionScores.EverySessionHasOneFinalRow` | verl/verl/trainer/main_ppo_sync.py:161-162 | each session has exactly one row of largest index, the first on ties |
| `SessionScores.SessionsAreUidAndSession` | verl/verl/trainer/main_ppo_sync.py:155-160 | rows are grouped together exactly when uid and session are equal |
| `ReplayBuffer.Merge` | verl/verl/trainer/main_ppo_sync.py:241-246 | the loop updates exactly the listed keys, tag by tag |
| `ReplayBuffer.UpdateLaws` | verl/verl/trainer/main_ppo_sync.py:246 | merging tag dictionaries: empty ones are neutral, it is associative and idempotent, and what is merged last stands |
| `ReplayBuffer.ReplayBuffer.Add` | verl/verl/trainer/main_ppo_sync.py:234-246 | exactly one partition changes, by the merged items |
| `ReplayBuffer.ReplayBuffer.TrySample` | verl/verl/trainer/main_ppo_sync.py:271-294 | one round: bad arguments are refused; it goes back to sleep if and only if something of the step is running; otherwise the batch is every successful key of the step, once, with its tags |
| `ReplayBuffer.BatchSizeModeIsEmpty` | verl/verl/trainer/main_ppo_sync.py:271-294 | without a step nothing matches: no waiting, and the only batch is the empty one |
| `ReplayProtocol.StepKeepsInv` | verl/verl/trainer/main_ppo_sync.py:211-246 | every step of workers, poll thread and manager keeps the invariant over queue, snapshot and buffer |
| `ReplayProtocol.NoKeyError` | verl/verl/trainer/main_ppo_sync.py:284-286 | in every reachable state each entry has both tags that sampling reads |
| `ReplayProtocol.SampleWaitsForAll` | verl/verl/trainer/main_ppo_sync.py:277-294 | when sampling step g returns, every prompt registered for g has failed, or finished with all its sessions ended |
| `ReplayProtocol.SampleIsComplete` | verl/verl/trainer/main_ppo_sync.py:352-449 | whatever the interleaving, every output that a session of a finished prompt has put is in the batch |
| `ReplayProtocol.SampleHasRightTags` | verl/verl/trainer/main_ppo_sync.py:422-449 | whatever the interleaving, an output in the batch has the step sampled, success, and the lengths its own session put with it |
| `ReplayProtocol.SampleIsSound` | verl/verl/trainer/main_ppo_sync.py:277-294 | the batch holds nothing but outputs put for prompts of that step |
| `ReplayProtocol.OnePollSuffices` | verl/verl/trainer/main_ppo_sync.py:211-223 | once every prompt of a step has ended, one more poll lets the sampler through |
| `PipelineShards.GetDynamicPipelineShards` | verl/verl/model_merger/megatron_model_merger.py:67-98 | all errors and results in closed form: for p >= 3 it succeeds if and only if ceil(L/p) * (p - 2) + 2 <= L; then every middle entry is ceil(L/p), the first is half of the rest rounded down, and the last is what remains |
| `PipelineShards.FindStrategies` | verl/verl/model_merger/megatron_model_merger.py:81-93 | the loop lists exactly the valid middle sizes, with their shards, the rounded-down half first, and differences |
| `PipelineShards.CandidateBounds` | verl/verl/model_merger/megatron_model_merger.py:83-86 | a middle size m is valid exactly when m * (p - 2) + 2 <= L and ceil(L/p) <= m |
| `PipelineShards.ShardsAreGood` | verl/verl/model_merger/megatron_model_merger.py:95-98 | the result has p positive entries that sum to L, the ends not above the middle |
| `PipelineShards.FiveLayersOnFourRanks` | verl/verl/model_merger/megatron_model_merger.py:81-96 | five layers on four ranks have no candidate |
| `PipelineShards.RangesCover` | verl/verl/model_merger/megatron_model_merger.py:360-363 | every layer number below the sum lies in some rank's range |
| `PipelineShards.RangesAreDisjoint` | verl/verl/model_merger/megatron_model_merger.py:360-363 | and in only one, at one place |
| `PipelineShards.RenumberLayers` | verl/verl/model_merger/megatron_model_merger.py:366-418 | local layer numbers become their place after all layers of the chunks before |
| `PipelineShards.RenumberingFollowsRanges` | verl/verl/model_merger/megatron_model_merger.py:366-418 | when chunk c holds the layers 0 .. shards[c]-1, renumbering follows the ranges |
| `PipelineShards.RenumberedLayersPartition` | verl/verl/model_merger/megatron_model_merger.py:358-420 | over all ranks, each starting at its own offset and holding any number of chunks, every layer number below the sum is the new number of exactly one local layer |
| `PipelineShards.RenumberedLayersAreInRange` | verl/verl/model_merger/megatron_model_merger.py:358-420 | and no other number is given |
| `PipelineShards.RenumberedLayersInOrder` | verl/verl/model_merger/megatron_model_merger.py:358-420 | the new numbers follow rank, chunk and local number |
| `PipelineShards.FileNumbersPartition` | verl/verl/model_merger/megatron_model_merger.py:431-453 | every number of 1 .. saves_total names exactly one file of exactly one rank |
| `PipelineShards.FileNumbersInOrder` | verl/verl/model_merger/megatron_model_merger.py:431-453 | the file numbers follow rank and chunk |
| `QkvLayout.DeinterleaveUndoesInterleave` | verl/scripts/converter_hf_to_mcore.py:155-160 | taking the converter's matrix apart returns query, key and value rows, for all head counts |
| `QkvLayout.InterleaveUndoesDeinterleave` | verl/verl/model_merger/megatron_model_merger.py:334-354 | putting the parts together returns the fused matrix: no row is lost or moved |
| `QkvLayout.InterleavedRow` | verl/scripts/converter_hf_to_mcore.py:155-160 | row r of group g of the fused matrix is a query row, a key row or a value row of group g, in that order |
| `QkvLayout.SplitTensors` | verl/verl/model_merger/megatron_model_merger.py:331-354 | succeeds if and only if kv divides the heads and heads + 2 * kv divides the rows; then it takes the tensor apart |
| `QkvLayout.WholeHeads` | verl/verl/model_merger/megatron_model_merger.py:331-341 | the checks of the split succeed exactly then |
| `QkvLayout.MergeAcrossTp` | verl/scripts/legacy_model_merger.py:529-557 | when it succeeds, no shards at all included, and what it returns: the concatenation of the shards taken apart |
| `QkvLayout.MergeIsSplitOfConcat` | verl/scripts/legacy_model_merger.py:529-557 | when tp divides kv, merging shards equals splitting their concatenation |
| `QkvLayout.ConvertAndSplit` | verl/scripts/converter_hf_to_mcore.py:155-160 | converting and splitting returns the original rows |
| `RowBlocks.ChunkOfWholeBlocks` | verl/verl/model_merger/megatron_model_merger.py:343 | chunking n * w rows into n chunks gives the n blocks of w rows |
| `BlockExpansion.ChangeNameMoves` | LLaMA-Factory/scripts/llama_pro.py:36-37 | replacing in the text of a key of layer i gives the key of layer j with the same suffix exactly when i = j or the suffix does not have i between dots |
| `BlockExpansion.InLayer` | LLaMA-Factory/scripts/llama_pro.py:76-83 | a key's text contains ".i." exactly when it is a key of layer i or its suffix, with the dot before it, contains ".i." |
| `BlockExpansion.PassesAreRight` | LLaMA-Factory/scripts/llama_pro.py:74-87 | every pass takes exactly the keys of its own layer and renames them rightly if and only if no name has the number of a layer between dots but for its own layer number |
| `BlockExpansion.ExpertsGoAstray` | LLaMA-Factory/scripts/llama_pro.py:74-87 | with a numbered expert d at or above the first inserted layer, another layer's expert is stored under a number the model does not have |
| `BlockExpansion.CopyLayer` | LLaMA-Factory/scripts/llama_pro.py:75-88 | the inner loop writes every key it takes under its changed name; if the pass is right it writes exactly layer i at the given position, projections zeroed when asked |
| `BlockExpansion.PositionOfLayer` | LLaMA-Factory/scripts/llama_pro.py:70-91 | original layer i stands at i + i // split, followed by a zeroed copy exactly when split divides i + 1 |
| `BlockExpansion.BlockExpansion` | LLaMA-Factory/scripts/llama_pro.py:53-94 | succeeds if and only if num_expand > 0 divides the layers; if no name is ambiguous, the output has exactly layers 0 .. L+E-1, the expansion of the original ones, and the other parameters unchanged |
| `BlockExpansion.ExpandedStands` | LLaMA-Factory/scripts/llama_pro.py:74-90 | tensor by tensor: layer i stands unchanged at i + i // split; the inserted layer after it has the same shapes, zeros where the key contains "down_proj" or "o_proj", and the same values everywhere else |
| `BlockExpansion.ExpansionKeepsFunction` | LLaMA-Factory/scripts/llama_pro.py:70-94 | for every interpretation of residual layers, the expanded model computes what the original does |
| `BatchRows.PadToDivisor` | verl/verl/protocol.py:74-99 | the pad size, and padded row i is row i mod n in every column |
| `BatchRows.PaddedLength` | verl/verl/protocol.py:85-86 | the padded length is the least multiple of the divisor not below n |
| `BatchRows.UnpadUndoesPad` | verl/verl/protocol.py:102-106 | unpadding returns the batch |
| `BatchRows.ChunkIsGather` | verl/verl/protocol.py:879-901 | tensor columns cut by chunk and object columns cut at the cumulated sizes are moved by the same row map, for chunks of equal size or not |
| `BatchRows.ChunkBatch` | verl/verl/protocol.py:864-903 | without padding it succeeds if and only if k divides the rows; with padding if and only if there are no tensors or ceil(n / ceil(n/k)) = k; piece i is its range of rows in every column |
| `BatchRows.EqualChunks` | verl/verl/protocol.py:873-882 | when k divides n, piece i is rows i*(n/k) .. (i+1)*(n/k)-1 |
| `BatchRows.SectionsAreEven` | verl/verl/protocol.py:890-893 | without tensors the pieces differ by one row at most, the longer ones first |
| `BatchRows.ChunksAreFull` | verl/verl/protocol.py:879-882 | with tensors every piece but the last has ceil(n/k) rows |
| `BatchRows.ConcatOfChunks` | verl/verl/protocol.py:864-934 | the pieces, of equal size or not, concatenated, are the batch |
| `BatchRows.FiveRowsForFour` | verl/verl/protocol.py:879-893 | five rows make only three chunks for four workers |
| `BatchRows.SplitBatch` | verl/verl/protocol.py:905-914 | ceil(n/size) pieces, all full but the last, covering the rows in order |
| `BatchRows.JoinAllOfGathers` | verl/verl/protocol.py:927-934 | concatenating pieces taken by row maps is taking by the joined map |
| `BatchRows.ConcatOfSplits` | verl/verl/protocol.py:905-934 | splits, concatenated, are the batch; without rows there is nothing to concatenate and it raises |
| `BatchRows.Dispatch` | verl/verl/protocol.py:74-106 | padded, chunked, concatenated and unpadded, a batch is unchanged |
| `BatchRows.RepeatIsGather` | verl/verl/protocol.py:971-1013 | for a whole batch and both modes: the torch operations on tensors and the numpy operations on objects move every column by one row map, row j // times or row j mod n to row j |
| `BatchRows.RepeatTensorRows` | verl/verl/protocol.py:983-993 | repeat_interleave, and unsqueeze, expand and reshape, put these rows at j |
| `BatchRows.RepeatObjectRows` | verl/verl/protocol.py:1003-1007 | np.repeat and np.tile put the same rows at j |

## Left out

- Ray, ZeroMQ, NCCL, NIXL and CUDA streams: only their FIFO order and the start and completion of copies appear.
- The other checkpoint engines (mooncake, hccl, kimi): one overwrites its own payload with its completion marker, one repeats the NCCL loop without splitting, one rests on a server that is not part of this model.
- `SplitWeightChunks`: the error that `view(-1)` raises for a tensor that is not contiguous.
- Trainer ranks other than 0, which consume the weights without sending, and timing and bandwidth logs.
- `MergeWeightChunks`: a later chunk of a large weight that announces another shape is reported as a fault of its own; the source would write out of the buffer or never finish the weight, which cannot arise from a split; a one-byte chunk announced as longer, which the source would broadcast, is reported too.
- The coroutines and operation objects of the engines are steps of a relation on values; only the fill loop, the slicing and the merge are also methods over arrays.
- Floating-point contents of tensors: elements and bytes are opaque; only positions matter.
- The synchronous offload handler, stream synchronisation and pinned memory; the storage address of a reloaded tensor is not observed.
- `AsyncDoubleBufferGroupOffloadHandler.BulkReloadGroup`: states when it succeeds and what it then does, not which fault comes first when several entries are bad.
- `AsyncDoubleBufferGroupOffloadHandler.OnGroupCommitBackward`: the same, because it calls the reload; and what the fields hold after a fault is not stated.
- Random choice in the generator: chains, names and variables are arbitrary instead of drawn; the problem sentences and their shuffling are not modelled.
- Solution sentences are records of a variable and its expressions; the words around them ("Define ... as ...; so ...") and the joining into one text are not modelled.
- `normalforward_solution` and `simplifiedforward_solution`: one operation per sentence, nothing to inline.
- Numbers with signs, blanks or non-ASCII digits, which Python's int() would also accept as a key's last field.
- `BroadcastScores`: compute_advantage is an arbitrary scoring of the final rows.
- `TrySample`: for entries without the two tags only that an error implies such an entry is stated; NoKeyError shows that none arises. Waiting between rounds is not modelled.
- Removal from the replay buffer, the validation partition beside the training one, and clearing of the queue.
- The order of a dictionary's keys in replay buffer batches.
- Distribution of parameter keys over the files of one rank, expert and embedding renaming, and reading or writing files.
- `MergeAcrossTp`: for shards of equal size; the gate/up and plain branches concatenate or pick one shard.
- `BlockExpansion`: for a model whose layers all have the same parameter suffixes; tokenizer, configuration and shard files are not modelled.
- `ChunkBatch`: a table with tensors but no rows gives k empty pieces, as tensor.chunk does.
- `RepeatIsGather`: for a count of repetitions that is not negative, and rows that have elements.
- A rank whose merge raises stops asking for chunks; the runs of the engines go on as if it did not.
- meta_info of a batch, the merging of metrics, and the DataProtoFuture wrappers.
- `ConcatBatches`: for pieces with the same columns, as the source's callers pass.
