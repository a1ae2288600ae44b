# Verified model of the ggml runtime

A Dafny 4.11 model of the tensor-graph runtime under `CGGML/`: the memory planner of `ggml-alloc.c`, the backend scheduler of
`ggml-backend.cpp`, graph construction, fusion check and reverse-mode gradients of `ggml.c`, the tensor-parallel meta backend of
`ggml-backend-meta.cpp`, the quantiser searches and packings of `ggml-quants.c`, the training loop of `ggml-opt.cpp` and the hash
set they keep their tables in. Loops and in-place updates are methods over arrays and class fields, each proved equal to a
specification function or to a property of the final state; the main results are lemmas about those specifications, for every
graph, every run and every input.

`dafny verify dfyconfig.toml` verifies the whole project.

## What is modelled

| component | files |
|---|---|
| Hash set with linear probing | `hash_set` |
| Free lists and the multi-chunk allocator | `free_list`, `talloc`, `talloc_runs`, `talloc_limits`, `dyn_tallocr` |
| Graph memory planner and plan reuse | `tensor_graph`, `planner*`, `plan_safety`, `plan_bounds`, `plan_buffers`, `plan_success`, `plan_reuse`, `plan_overrun`, `gallocr` |
| Running a graph in planned memory | `plan_run`, `plan_splits`, `plan_whole` |
| Scheduler passes 1 to 5, split execution, graph copy | `sched_*` |
| Graph construction and fusion check | `graph_build`, `graph_forward`, `graph_fuse` |
| Reverse mode, down to epsilon-delta derivatives | `autodiff`, `autodiff_sum`, `limits`, `autodiff_true` |
| IQ1_S search, two-parameter fit, coordinate descent | `quant_sums`, `quant_iq1s*`, `quant_fit*`, `quant_descent*` |
| TQ1_0, Q3_K and Q4_K packing | `quant_bytes`, `quant_tq1`, `quant_q3k*`, `quant_q4k` |
| All-reduce, sharded MUL_MAT, scatter and gather | `meta_*` |
| Training schedule | `opt_schedule`, `opt_fit` |
| Shared arithmetic and option type | `arithmetic`, `wrappers` |

An abort or failed assertion of the source is an `Option` without value or a boolean `ok`, and the contracts say when it happens.
Sizes are unbounded naturals; where the source relies on machine width (the signed difference of sizes in the allocator search, the
bytes and words of the packed formats) the width is modelled. Floats of the quantisers, of the gradients and of the all-reduce are
exact reals, and `nearest_int` is any function within one half of its argument.

## What turned out not to hold

Each of these is stated with the exact condition or with a concrete witness.

- The split execution of the scheduler computes what the graph computes if and only if no split has an input that shows a node
  computed after the split has started (`SchedReady.MeaningExactlyWhenReady`); a view placed on another backend than the node it
  views is the only way to get one. Where no pin, buffer or weight places the views they follow their node and the run is right
  (`SchedWhole.ScheduledRunIsCorrect`); with a view pinned elsewhere it is wrong (`SchedWhole.PinnedViewBreaksTheRun`).
- The butterfly all-reduce is right if and only if the number of devices is a power of two
  (`MetaReduce.ReduceSumsExactlyForPowers`).
- A product that is announced as mirrored, on the assumption that the devices synchronise, is mirrored over a power of two devices
  (`MetaMulMat.SyncedMulMat`) and may not be over another number (`MetaMulMat.SyncNeedsPowerOfTwo`).
- A range of the allocator may end above the maximum chunk size even when its own request is small; it does so only in a chunk that
  a larger request opened, and within the size of that request (`TallocLimits.EveryRangeWithinChunkSize`,
  `TallocLimits.LaterRangeAboveMaximum`).
- The chunks of the devices add up to the chunk of the tensor, as `set_tensor` and `get_tensor` assert, if and only if there is one
  device or the split dimension has more than one unit (`MetaBytes.ChunksFillExactly`).
- Splitting the summed dimension of a product is right if and only if the devices hold the same indices of both operands; the
  source compares only per-device sums, which several segments can satisfy without it (`MetaMulMat.DepthSplitExactly`,
  `MetaMulMat.SegmentsMayMismatch`). Splitting rows is right if and only if the devices hold them in order
  (`MetaMulMat.RowSplitExactly`, `MetaMulMat.ColumnSplitExactly`, `MetaMulMat.SegmentsMayReorder`). One segment per operand
  excludes both (`MetaMulMat.OneSegmentMulMat`).
- The refinement loop of `make_q3_quants` never changes a code when the value of largest magnitude is positive
  (`QuantDescent.NegativeScaleNeverMoves`, `QuantDescentRun.Q3IsSound`); with a negative one it does
  (`QuantDescentRun.NegativePeakMoves`).
- The reuse check of the planner keeps every placed leaf within its slot if and only if some node reads every placed leaf
  (`PlanReuse.CheckCoversLeafsExactly`); otherwise a leaf that has grown can reach over a node (`PlanOverrun.UnreadLeafIsOverrun`).
- The free list survives an empty range if and only if the range starts where a free block starts or ends
  (`FreeList.EmptyReleaseExactly`).
- `ggml_opt_epoch` ends with nothing pending if and only if its training batches and all its batches are whole numbers of
  accumulation windows (`OptSchedule.Epoch`); with other numbers it may never take a step (`OptFit.MisalignedEpochs`).
  `ggml_opt_fit` always passes whole windows.
- Two branches of the source are dead: the merge with the previous block when the range touches the block after it
  (`FreeList.MergeWithPreviousNeverFires`) and the reuse of a view's root (`PlannerOwners.ViewsAreNeverReused`).

## Model

| member | source | states |
|---|---|---|
| PlanSafety.PlanIsSafe | CGGML/ggml-alloc.c:716-821 | In every plan of every ordered graph, two distinct tensors whose contents matter at the same step are on disjoint bytes, unless one is the node running in place on its source |
| PlanSafety.OutputsAreNeverOverlapped | CGGML/ggml-alloc.c:689-710 | Nothing planned after an output exists overlaps it |
| PlanSafety.HeldExactlyWhileNeeded | CGGML/ggml-alloc.c:762-820 | Before each step a tensor owns its range if and only if it exists and is still to be produced, still to be read, or kept |
| PlanSafety.NothingLeaks | CGGML/ggml-alloc.c:762-820 | A finished plan still owns only outputs, unread tensors and roots of unread views |
| PlanSuccess.PlanSucceeds | CGGML/ggml-alloc.c:598-821 | Planning does not abort when no node is larger than a source of its layout, fewer than 254 tensors are held before any step, and one largest range per tensor and node fits in the largest chunk |
| PlanBuffers.NodesInTheirBuffers | CGGML/ggml-alloc.c:621-687 | In a finished plan a node has the place of the first source that may be taken over: owned, no output, same layout, no other reader left and no view; without one it is in the buffer named for it |
| PlanBuffers.LeafsInTheirBuffers | CGGML/ggml-alloc.c:721-726 | In a finished plan every leaf is in the buffer named for it |
| PlanBuffers.InputsInTheirBuffers | CGGML/ggml-alloc.c:728-759 | In a finished plan every graph input that is no leaf is in the buffer of the first node that is it or reads it |
| PlanRun.PlannedRunIsCorrect | CGGML/ggml-alloc.c:716-821 | With bytes as the only memory, every node leaves its right value in its range after its step, and outputs keep theirs to the end, although ranges are reused |
| PlanSplits.ScheduledAndPlannedRunIsCorrect | CGGML/ggml-backend.cpp:1409-1480 | Scheduler and planner together, for a cut whose inputs are ready and a graph whose inputs are leafs: running the split graph copy in planned memory gives every node, and at the end every output, the value of the original graph |
| PlanWhole.PinsToMemory | CGGML/ggml-backend.cpp:1014-1480 | The same from the conditions of a caller: where no pin, buffer or weight places a node that views another node, assignment, cut, graph copy and planned memory together give every node and output the value of the original graph |
| SchedRun.SplitsPreserveMeaning | CGGML/ggml-backend.cpp:1542-1668 | When no input of a split shows a node computed after the split has started, copying inputs and running splits in order gives every tensor the value of in-order evaluation, for arbitrary operations and values |
| SchedWhole.ScheduledRunIsCorrect | CGGML/ggml-backend.cpp:1014-1668 | Where nothing places the nodes that view other nodes, the assigned and cut graph run by splits gives every tensor the value of in-order evaluation |
| SchedReady.MeaningExactlyWhenReady | CGGML/ggml-backend.cpp:1542-1668 | The splits compute what the graph computes if and only if no input shows a node computed after its split has started |
| AutodiffTrue.GradientIsTrueDerivative | CGGML/ggml.c:6346-6441 | For every scalar graph with nonzero divisors the backward pass leaves in each parameter its initial accumulator plus the epsilon-delta derivative of the summed losses |
| GraphFuse.FusionCheckIsExact | CGGML/ggml.c:7345-7401 | On a built graph and distinct indices the fusion check answers yes if and only if every undeclared member is no output, is read by later members only and views members only |
| QuantIq1sBest.SearchIsExact | CGGML/ggml-quants.c:4395-4444 | No assignment of the three codes, with either level triple and any real scale of either sign, has a smaller weighted squared error than the split that the search keeps |
| MetaReduce.ReduceSumsExactlyForPowers | CGGML/ggml-backend-meta.cpp:1759-1837 | The butterfly all-reduce gives every device the total, for all inputs, if and only if the number of devices is a power of two |
| MetaMulMat.ShardedMulMatExactly | CGGML/ggml-backend-meta.cpp:538-559 | Of the states that the rule accepts, the local products put together, summed or mirrored as announced are the full product for all operands if and only if split rows are held in order and a split depth has the same indices on both sides |
| OptFit.Fit | CGGML/ggml-opt.cpp:999-1065 | Every optimiser step of a fit applies one whole window of consecutive training batches; each shard is read once per epoch and stays on its side of the partition; all shards are shuffled before, and the training shards before every epoch, exactly under the two tests of the source, and the epochs read the permutations that result |
| TallocRuns.EveryRun | CGGML/ggml-alloc.c:200-348 | After any sequence of allocations and frees: free blocks sorted, nonempty and separated, free and live ranges tile each chunk, live addresses aligned, max_size the highest end ever handed out |
| HashSets.HashSet.constructor | CGGML/include/ggml-impl.h:224-237 | A fresh table is empty |
| HashSets.HashSet.Find | CGGML/include/ggml-impl.h:257-270 | Linear probing finds the slot of a stored key, else the free slot it would take, else reports a full table |
| HashSets.HashSet.Contains | CGGML/include/ggml-impl.h:272-275 | True exactly for stored keys |
| HashSets.HashSet.FindOrInsert | CGGML/include/ggml-impl.h:298-313 | Adds exactly the key, moves no other key, and aborts exactly when the key is new and every slot is used |
| HashSets.PutKeeps | CGGML/include/ggml-impl.h:283-288 | Storing a key where its probe sequence ends keeps every key reachable and distinct |
| FreeList.InsertPos | CGGML/ggml-alloc.c:133-137 | First position whose block starts at or after the offset |
| FreeList.MergeWithPreviousNeverFires | CGGML/ggml-alloc.c:331-344 | When the scan stops at the block after the range, the block before does not touch it: the second merge is dead |
| FreeList.ReleaseMeaning | CGGML/ggml-alloc.c:310-348 | Giving back a used range frees exactly those bytes and keeps the list sorted, nonempty and separated |
| FreeList.CarveMeaning | CGGML/ggml-alloc.c:259-267 | Taking the front of a block uses exactly those bytes and keeps the list well formed |
| FreeList.Canonical | CGGML/ggml-alloc.c:108-117 | Two well-formed lists with the same free bytes are equal |
| FreeList.CarveThenRelease | CGGML/ggml-alloc.c:259-348 | Taking a range and giving it back restores the list |
| FreeList.EmptyReleaseExactly | CGGML/ggml-alloc.c:310-348 | Freeing an empty range keeps a list well formed, and then unchanged, if and only if the range starts where a free block starts or ends |
| FreeList.EmptyRangeBreaksTheList | CGGML/ggml-alloc.c:310-348 | An instance of the failing side: an empty range between used bytes leaves an empty block |
| Alignment.AlignUp | CGGML/ggml-alloc.c:51-55 | The least multiple of the alignment that is not below the size |
| TensorAlloc.BestInIsBestFit | CGGML/ggml-alloc.c:212-221 | Within a chunk the search returns the smallest block that fits, the last on ties, whenever one fits |
| TensorAlloc.FitSearchPicksLastChunk | CGGML/ggml-alloc.c:209-222 | The best size is reset per chunk, so the last chunk with a fitting inner block wins |
| TensorAlloc.TailSearchBest | CGGML/ggml-alloc.c:224-245 | The second search returns a tail to which no other tail is preferred, and fails only when none fits |
| TensorAlloc.TailSearchLeast | CGGML/ggml-alloc.c:224-245 | If some fitting tail stays below the high-water mark of its chunk, the one that leaves least over is taken, otherwise the one that raises its mark least; the first of several |
| TensorAlloc.ReuseFactorExact | CGGML/ggml-alloc.c:229-243 | The signed difference of sizes does not wrap for any tail that can serve the request |
| TensorAlloc.AllocMeaning | CGGML/ggml-alloc.c:200-307 | A successful allocation turns an aligned range of unused bytes inside its chunk into used ones and changes nothing else |
| TensorAlloc.AllocFailsOnlyWhenFull | CGGML/ggml-alloc.c:247-257 | Allocation fails if and only if sixteen chunks exist and no free block fits; a chunk is added if and only if fewer exist and none fits |
| TensorAlloc.FreeMeaning | CGGML/ggml-alloc.c:310-348 | Freeing makes exactly the given used range unused |
| TallocRuns.RunKeepsInv | CGGML/ggml-alloc.c:200-348 | Every legal run keeps the whole allocator invariant |
| TallocRuns.AllocMaxSize | CGGML/ggml-alloc.c:302 | An allocation raises max_size of its chunk to the end of the range, and of no other chunk |
| TallocRuns.AllFreedMeansInitial | CGGML/ggml-alloc.c:310-348 | When nothing is live every chunk is its single initial block again |
| TallocLimits.OpenedChunk | CGGML/ggml-alloc.c:158-177 | A chunk that an allocation adds is as large as the larger of the aligned request and the maximum chunk size, and the sixteenth as large as can be |
| TallocLimits.EveryRangeWithinChunkSize | CGGML/ggml-alloc.c:158-177 | After any run, in all chunks but the sixteenth, a range ends above the maximum chunk size only if the request that opened its chunk was larger, and then it ends within that request |
| TallocLimits.LaterRangeAboveMaximum | CGGML/ggml-alloc.c:158-177 | A run in which a later and smaller request ends above the maximum, in the chunk that a larger one had opened |
| DynTallocr.ChunkCell.Insert | CGGML/ggml-alloc.c:133-148 | In-place insertion equals the specified list |
| DynTallocr.ChunkCell.Remove | CGGML/ggml-alloc.c:150-156 | In-place removal equals the list without that block |
| DynTallocr.ChunkCell.Take | CGGML/ggml-alloc.c:259-302 | Takes the front of a block in place and raises max_size |
| DynTallocr.ChunkCell.GrowEnd | CGGML/ggml-alloc.c:318-330 | Joins a range to the end of a block, then to the next block |
| DynTallocr.ChunkCell.GrowFront | CGGML/ggml-alloc.c:331-344 | Joins a range to the front of a block, then to the previous block |
| DynTallocr.ChunkCell.GiveBack | CGGML/ggml-alloc.c:310-348 | In place, equals the specified release; false exactly on the abort |
| DynTallocr.ChunkCell.BestInner | CGGML/ggml-alloc.c:212-221 | The inner loop returns the specified best fit |
| DynTallocr.Allocator.constructor | CGGML/ggml-alloc.c:364-380 | A new allocator has no chunks |
| DynTallocr.Allocator.Reset | CGGML/ggml-alloc.c:350-362 | Resetting gives the state of a new allocator |
| DynTallocr.Allocator.NewChunk | CGGML/ggml-alloc.c:158-177 | Adds a chunk with one free block, as large as the larger of the request and the maximum chunk size or, for the sixteenth, as can be; or reports that all chunks exist |
| DynTallocr.Allocator.SearchInner | CGGML/ggml-alloc.c:209-222 | The first search equals its specification |
| DynTallocr.Allocator.SearchTails | CGGML/ggml-alloc.c:224-245 | The second search equals its specification |
| DynTallocr.Allocator.Alloc | CGGML/ggml-alloc.c:200-307 | The imperative allocation equals the specification in result and state |
| DynTallocr.Allocator.FreeBytes | CGGML/ggml-alloc.c:310-348 | The imperative free equals the specification in result and state |
| Planner.SameTypeSamePool | CGGML/ggml-alloc.c:509-526 | Two buffers share an allocator exactly when they have the same type |
| PlannerOwners.ViewsAreNeverReused | CGGML/ggml-alloc.c:656-668 | The branch that reuses the root of a view is unreachable in every reachable state |
| PlannerOwners.AllocateNodeKeepsInv | CGGML/ggml-alloc.c:621-687 | Placing a node keeps owners on disjoint, exactly accounted bytes and describes whom it takes over |
| PlannerOwners.TakeOverKeepsInv | CGGML/ggml-alloc.c:669-676 | Running in place hands the parent's address over with no more room than the parent had |
| PlannerOwners.FreeExtraMeaning | CGGML/ggml-alloc.c:598-619 | Giving back the tail keeps a prefix of the range owned |
| PlanBuffers.TakesFirstReusable | CGGML/ggml-alloc.c:628-679 | A node that its own step places takes over its first reusable source, and nobody if and only if it has none |
| PlanBuffers.PlacedBuffer | CGGML/ggml-alloc.c:621-687 | A tensor that is placed gets the buffer asked for, or buffer and address of the parent it takes over |
| PlanBuffers.InplaceOperations | CGGML/ggml-alloc.c:21-49 | Exactly the listed operations may run in place |
| PlanSuccess.FewBlocks | CGGML/ggml-alloc.c:108-117 | A chunk has at most one free block more than there are owners |
| PlanSuccess.AllocSucceeds | CGGML/ggml-alloc.c:200-307 | A request finds room as long as everything used so far with the request on top fits in the largest chunk |
| PlanSuccess.TakeOverSucceeds | CGGML/ggml-alloc.c:598-619 | Taking over a parent that is no smaller aborts only on a full table of free blocks |
| PlannerCounts.LastReader | CGGML/ggml-alloc.c:654-655 | One source edge left and no view in use means nothing reads the tensor afterwards |
| PlannerCounts.ZeroCountersMeanDone | CGGML/ggml-alloc.c:803-817 | With exact counters, both zero means no pending reader and no unread view |
| PlannerCounts.ViewCountsAfterRetire | CGGML/ggml-alloc.c:804-813 | When a counted view loses its last reader the root's view counter stays exact |
| PlannerSafety.ParentsAlreadyPlaced | CGGML/ggml-alloc.c:766-773 | In the main loop every parent is already placed |
| PlannerSafety.TakenIsDone | CGGML/ggml-alloc.c:654-676 | The parent a node runs in place on has no reader left |
| PlannerSafety.StepKeepsInv | CGGML/ggml-alloc.c:762-820 | One step keeps ownership equal to need and moves nobody |
| PlannerSafety.LoopKeepsInv | CGGML/ggml-alloc.c:762-820 | The whole loop keeps the invariant |
| PlannerSafety.PlacesAreFinal | CGGML/ggml-alloc.c:762-820 | An address never changes after the step that placed it |
| PlanSafety.StartOfLoop | CGGML/ggml-alloc.c:716-759 | The leaf and counting loops establish the invariant of the main loop |
| PlanSafety.LeafsGetOwned | CGGML/ggml-alloc.c:721-726 | Every leaf is owned after the leaf loop |
| PlanBounds.PlannedInsideChunk | CGGML/ggml-alloc.c:823-945 | Whatever matters lies inside its chunk as finally sized |
| PlanRun.OrdinaryRunIsCorrect | CGGML/ggml-alloc.c:716-821 | An ordinary graph run in planned memory holds, after each step and in every output at the end, what running its nodes in order means |
| PlanRun.InitialTensorsApart | CGGML/ggml-alloc.c:721-759 | Leafs and graph inputs never share bytes |
| PlanReuse.Record | CGGML/ggml-alloc.c:848-900 | The tables hold the record of every leaf, node and source |
| PlanReuse.NeedsRealloc | CGGML/ggml-alloc.c:995-1048 | The check answers no if and only if every node and every source fits its slot |
| PlanReuse.AcceptedExactly | CGGML/ggml-alloc.c:995-1048 | The check accepts a later graph of as many nodes and sources if and only if no node or source needs more than the one recorded in its place, in the buffer that one was planned in, and none needs a place where none was recorded |
| PlanReuse.Placer.InitTensor | CGGML/ggml-alloc.c:968-993 | A view follows its root, data already set stays, anything else goes to its recorded spot |
| PlanReuse.Placer.PlaceGraph | CGGML/ggml-alloc.c:1074-1093 | Placing leafs, then nodes with their sources puts every tensor on its one planned address |
| PlanReuse.ReusedPlanIsSafe | CGGML/ggml-alloc.c:995-1048 | A recorded plan is safe and in bounds for every later graph that passes the check, for nodes and sources of nodes, which are what the check looks at |
| PlanReuse.CheckCoversLeafsExactly | CGGML/ggml-alloc.c:1007-1048 | Every later configuration that passes the check keeps every placed leaf within its slot if and only if every placed leaf is a source of some node |
| PlanReuse.ReusedPlanIsSafeForAll | CGGML/ggml-alloc.c:995-1048 | Where every placed leaf is a source of some node, a recorded plan is safe and in bounds for every later graph that passes the check, for all tensors whose contents matter |
| PlanOverrun.UnreadLeafIsOverrun | CGGML/ggml-alloc.c:995-1048 | A planned graph with a node and an unread output leaf that passes the check for a grown leaf, which then overlaps the node while both are live |
| Gallocr.GraphAllocator.FreeExtraSpace | CGGML/ggml-alloc.c:598-619 | In place, equals its specification; false exactly on the abort |
| Gallocr.GraphAllocator.ScanParents | CGGML/ggml-alloc.c:629-679 | The source loop finds the specified reuse |
| Gallocr.GraphAllocator.AllocateNode | CGGML/ggml-alloc.c:621-687 | In place, equals its specification; false exactly on the abort |
| Gallocr.GraphAllocator.FreeNode | CGGML/ggml-alloc.c:689-710 | In place, equals its specification; false exactly on the abort |
| Gallocr.GraphAllocator.PlaceLeafs | CGGML/ggml-alloc.c:721-726 | The leaf loop equals its specification |
| Gallocr.GraphAllocator.CountAll | CGGML/ggml-alloc.c:728-759 | The counting loop equals its specification |
| Gallocr.GraphAllocator.RunStep | CGGML/ggml-alloc.c:762-820 | One round of the main loop equals its specification |
| Gallocr.GraphAllocator.AllocGraph | CGGML/ggml-alloc.c:716-821 | The whole planning run ends in the specified plan, whose buffers, addresses and owners the PlanBuffers and PlanSafety rows describe, or aborts exactly where the specification has none |
| SchedModel.FromCurIsSupported | CGGML/ggml-backend.cpp:878-933 | The first guess can run the operation, except that unallocated graph inputs go to the last backend |
| SchedGuess.DataDecides | CGGML/ggml-backend.cpp:845-893 | A tensor whose data, or whose viewed data, is in a buffer goes to the lowest backend that can use the buffer and run the operation |
| SchedGuess.AbortsExactly | CGGML/ggml-backend.cpp:878-899 | The guess aborts if and only if no backend can use the buffer and run the operation |
| SchedGuess.InputsGoLast | CGGML/ggml-backend.cpp:901-906 | A graph input without data goes to the last backend |
| SchedGuess.NoWeightNoGuess | CGGML/ggml-backend.cpp:908-933 | Without data, without a weight among the sources, or for ROPE, there is no guess |
| SchedGuess.WeightDecides | CGGML/ggml-backend.cpp:908-930 | The first source in a weight buffer decides: the lowest backend that can use the buffer and run the node, or, for host weights on the last backend with offloading, the lowest faster one that takes the operation over, if any |
| SchedGuess.WeightDecidesFinally | CGGML/ggml-backend.cpp:1014-1241 | After all passes the node is on the backend chosen for its weight, or on a faster one of the same buffer type that runs it |
| SchedGuess.DataDecidesFinally | CGGML/ggml-backend.cpp:1014-1241 | The same for data that is in a buffer already |
| SchedAssign.GuessList | CGGML/ggml-backend.cpp:1033-1068 | Pass 1 guesses for everything that is not pinned and leaves pins alone |
| SchedAssign.ExpandDown | CGGML/ggml-backend.cpp:1075-1095 | The downward sweep in place equals its specification |
| SchedAssign.ExpandUp | CGGML/ggml-backend.cpp:1096-1116 | The upward sweep in place equals its specification |
| SchedAssign.Pass2Meaning | CGGML/ggml-backend.cpp:1070-1148 | Pins stay, new assignments run their operation, and whoever is left is unsupported by the nearest placed neighbour on either side |
| SchedAssign.LastBackendIsFallback | CGGML/ggml-backend.cpp:1070-1148 | A node goes to the last backend in pass 2 only when its nearest faster neighbour below cannot run it |
| SchedUpgrade.PickBest | CGGML/ggml-backend.cpp:1164-1185 | The backend that can use most sources among those that run the node, lowest on ties |
| SchedUpgrade.PickUpgrade | CGGML/ggml-backend.cpp:1186-1208 | The lowest faster backend with the same buffer type that runs the node and can use all its sources |
| SchedUpgrade.Upgrade | CGGML/ggml-backend.cpp:1150-1209 | Pass 3 decides every node by those two rules, told from the final assignment |
| SchedChoice.SupportedExactly | CGGML/ggml-backend.cpp:985-1004 | A backend can use a tensor if and only if it supports the type of the buffer that the data is in or will be in |
| SchedChoice.CountIsCardinality | CGGML/ggml-backend.cpp:1168-1178 | The counted sources are exactly the slots with a place from which the backend can read |
| SchedChoice.LeftoverReadsMost | CGGML/ggml-backend.cpp:1164-1185 | A node that pass 2 left over ends on the backend that can read most of its sources, the fastest of those that run it |
| SchedChoice.PlacedFitsFastest | CGGML/ggml-backend.cpp:1186-1208 | A node that pass 2 placed ends on the fastest backend of the same buffer type that runs it and can read all its sources, or stays |
| SchedFinish.CompleteNode | CGGML/ggml-backend.cpp:1211-1241 | One round of pass 4 places a node and its sources as specified |
| SchedFinish.Complete | CGGML/ggml-backend.cpp:1211-1241 | After pass 4 every node and everything it reads has a backend; failure means some node runs nowhere |
| SchedFinish.FourSweeps | CGGML/ggml-backend.cpp:1070-1148 | The four sweeps in place equal pass 2 |
| SchedFinish.AssignBackends | CGGML/ggml-backend.cpp:1014-1241 | Passes 1 to 4: every node that some backend runs and that is free to move runs where it ends, pins move only to a lower id with the same buffer type, unplaced views follow their node |
| SchedSplit.RedirectSources | CGGML/ggml-backend.cpp:1317-1370 | Sources on other backends in unusable buffers, and only those, are redirected to copies that their split fills |
| SchedChoice.CopiedExactly | CGGML/ggml-backend.cpp:1350-1369 | A node reads a copy of a source if and only if the source is assigned to another backend and lies in a buffer the node's backend cannot use |
| SchedSplit.AddNode | CGGML/ggml-backend.cpp:1259-1371 | A node joins the last split and every property of the cut is kept |
| SchedCut.NeedNewSplit | CGGML/ggml-backend.cpp:1270-1299 | A cut inside a backend is made exactly for a far weight or for a full input list |
| SchedCut.SplitNode | CGGML/ggml-backend.cpp:1259-1371 | One round of pass 5 keeps the cut and its boundaries justified |
| SchedCut.SplitGraph | CGGML/ggml-backend.cpp:1243-1374 | Splits tile the nodes, each on its nodes' backend, every source readable there or copied at the start of this or an earlier split; failure only when a split is full |
| SchedRun.ComputeSplits | CGGML/ggml-backend.cpp:1542-1668 | The copy-then-run loop in place equals the specified run |
| SchedReady.FollowingViewsAreReady | CGGML/ggml-backend.cpp:1259-1371 | If views are placed with the node they view, every input is ready when its split starts |
| SchedReady.LateInputIsStrayView | CGGML/ggml-backend.cpp:1259-1371 | An input that is not ready is a view placed on another backend than the node it views |
| SchedReady.LateInputChangesMeaning | CGGML/ggml-backend.cpp:1542-1668 | A late input makes some node read a wrong value |
| SchedWhole.UnplacedViewsAreReady | CGGML/ggml-backend.cpp:1014-1374 | If the user pins no node that views a node, and neither a buffer nor a weight source places one, every input of every split is ready when the split starts |
| SchedWhole.Schedule | CGGML/ggml-backend.cpp:1014-1374 | Assignment and cut in sequence: what both promise, and a cut that can be copied, planned and run wherever nothing places the views |
| SchedWhole.PinnedViewBreaksTheRun | CGGML/ggml-backend.cpp:1014-1668 | A graph, pins and a cut as the passes promise them, with the view of a node pinned elsewhere, where an input is late and the splits compute something else |
| SchedGraphCopy.BuildGraphCopy | CGGML/ggml-backend.cpp:1409-1480 | The loops build the specified graph copy |
| SchedGraphCopy.GraphCopyIsOrdered | CGGML/ggml-backend.cpp:1409-1480 | The graph copy meets everything the planner requires of its callers |
| PlanSplits.GraphCopyMeansOriginal | CGGML/ggml-backend.cpp:1409-1480 | The graph copy with its dependency nodes means what the original graph means |
| GraphForward.CGraph.Visit | CGGML/ggml.c:6831-6897 | A visit lists everything reachable once, sources first, counts every source edge once, and keeps the compute flag closed |
| GraphForward.CGraph.Revisit | CGGML/ggml.c:6839-6853 | A second visit with compute flags what was reached without it |
| GraphForward.CGraph.List | CGGML/ggml.c:6875-6894 | A tensor goes to the leafs or the nodes; failure when the list is full |
| GraphForward.CGraph.Expand | CGGML/ggml.c:6899-6917 | One expand keeps all properties of the graph; failure only on a full list or a start that is a leaf with sources |
| GraphForward.RunBuilds | CGGML/ggml.c:6899-6935 | After any sequence of expands: every reachable tensor listed exactly once, the leafs being those without an operation that are no parameters, sources before users, use counts equal to edges from visited tensors |
| GraphForward.ComputeReachesAll | CGGML/ggml.c:6831-6897 | A computing request flags everything it reaches that has an operation, even when reached without computing first |
| GraphForward.BuiltIsTopological | CGGML/ggml.c:6831-6917 | Every built graph is one that scheduler and planner accept |
| GraphFuse.FindTensor | CGGML/ggml.c:7327-7343 | The loop answers as the specified search does |
| GraphFuse.FindsNames | CGGML/ggml.c:7327-7343 | The search answers whether the tensor is a listed node, up to the first index without a node |
| GraphFuse.ViewsInsideExactly | CGGML/ggml.c:7389-7398 | The walk up the view sources succeeds if and only if every tensor on the chain is a member |
| GraphFuse.CanFuse | CGGML/ggml.c:7345-7401 | The loops answer whether every member passes |
| GraphFuse.CountsDecide | CGGML/ggml.c:7376-7388 | Comparing the use count with the edges found inside decides exactly whether anybody else reads the member |
| Autodiff.Prepare | CGGML/ggml.c:6962-7024 | Which nodes need a gradient, and which start with an accumulator |
| Autodiff.BackwardExpand | CGGML/ggml.c:6936-7033 | The loops build the specified gradients; failure exactly without parameter or loss |
| AutodiffSum.UnneededIsConstant | CGGML/ggml.c:6346-6362 | Pruning drops only nodes that depend on no parameter |
| AutodiffSum.StepKeeps | CGGML/ggml.c:6346-6441 | The rule of every operation, with shared operands, conserves the weighted sum of tangents |
| AutodiffSum.OutlookIsConserved | CGGML/ggml.c:7026-7030 | What the gradient will become is conserved through the whole backward loop |
| AutodiffSum.GradientIsAccumulatedTangent | CGGML/ggml.c:6936-7033 | The gradient is the sum of initial accumulators times tangents |
| AutodiffTrue.TangentIsDerivative | CGGML/ggml.c:6346-6441 | The tangent of every node is the derivative of its value, where no divisor vanishes |
| AutodiffTrue.LossTangentIsDerivative | CGGML/ggml.c:7199-7233 | The tangent of the summed losses is the derivative of the summed losses |
| QuantIq1s.Try | CGGML/ggml-quants.c:4420-4429 | A comparison keeps the better score together with the scale that achieves it |
| QuantIq1s.Search | CGGML/ggml-quants.c:4406-4431 | The double loop returns a split that no other split with either triple beats |
| QuantIq1s.SplitsSuffice | CGGML/ggml-quants.c:4395-4401 | With a scale that is not negative, some split of the sorted values is as good as any assignment |
| QuantIq1s.MirrorSame | CGGML/ggml-quants.c:4441-4444 | The mirrored triple with the opposite scale and flipped codes has the same error |
| QuantIq1s.LevelsAre | CGGML/ggml-quants.c:4364-4365 | Codes 0, 1, 2 stand for -1, 0, 1, moved up by an eighth for shift 1 and down by an eighth for shift -1 |
| QuantIq1sBest.NothingFound | CGGML/ggml-quants.c:4432-4437 | The search finds nothing if and only if all weights are zero |
| QuantIq1sBest.ErrorPermuted | CGGML/ggml-quants.c:4401-4405 | Sorting values, weights and codes together does not change the error |
| QuantIq1sBest.QuantizeBlock | CGGML/ggml-quants.c:4387-4444 | Codes, scale and shift in the original order: scale not negative, and the least error there is unless every value is below the cutoff |
| QuantFit.FitLineIsLeast | CGGML/ggml-quants.c:789-796 | For D > 0 the computed scale and minimum minimise the squared error over all scales and all minima that are not positive, clamped case included |
| QuantFitRun.CandidateBelowLargest | CGGML/ggml-quants.c:777-796 | The kept minimum stays below the largest value, so no try divides by zero |
| QuantFitRun.KeptError | CGGML/ggml-quants.c:764-812 | best_error is always the error of the kept codes, scale and minimum |
| QuantFitRun.RunImproves | CGGML/ggml-quants.c:777-813 | The kept error never grows, so it never exceeds that of the first quantisation, and what is kept changes only for a strictly smaller one |
| QuantFitRun.BeatsEveryTry | CGGML/ggml-quants.c:777-813 | With squared errors the result beats every scale and every minimum that is not positive for the codes of every try |
| QuantFitRun.FlatIsExact | CGGML/ggml-quants.c:756-761 | Values that all coincide are reproduced exactly |
| QuantFitBest.CodesAreNearest | CGGML/ggml-quants.c:766-767 | Every code is within one half of the scaled distance from the minimum, or the outermost code beyond the range |
| QuantFitBest.PlainWithinHalfStep | CGGML/ggml-quants.c:756-775 | The plain quantisation reproduces every value within half of (max - min) / nmax |
| QuantFitBest.KeptWithinHalfStep | CGGML/ggml-quants.c:756-813 | The kept squared error is at most the sum of the weights times the square of half a step |
| QuantFitBest.DetPositiveExactly | CGGML/ggml-quants.c:789-791 | The determinant is positive if and only if two codes with weight differ |
| QuantFitBest.BeatsEveryLine | CGGML/ggml-quants.c:777-813 | With squared errors the result beats, for every try in which two codes with weight differ, every scale and every minimum that is not positive |
| QuantFitRun.TryOne | CGGML/ggml-quants.c:777-813 | One try in place equals its specification |
| QuantFitRun.Fit | CGGML/ggml-quants.c:931-1012 | The loops in place end in the specified result; the returned minimum is not negative |
| QuantDescent.VisitExact | CGGML/ggml-quants.c:660-675 | sumlx and suml2 stay the sums over the current codes |
| QuantDescent.VisitRaises | CGGML/ggml-quants.c:667-674 | An accepted move changes one code and strictly raises sumlx^2/suml2 |
| QuantDescent.DescentIsSound | CGGML/ggml-quants.c:658-684 | The returned scale is the best for the returned codes, no scale makes the first codes better, and any change makes the error strictly smaller |
| QuantDescent.RefineInRange | CGGML/ggml-quants.c:1061-1083 | Codes stay in their range |
| QuantDescent.NegativeScaleNeverMoves | CGGML/ggml-quants.c:646-676 | With a negative inverse scale the guard on slx always fails and no code ever changes |
| QuantDescentBest.ProposalIsBest | CGGML/ggml-quants.c:662-665 | No real code in place of the one visited gives a smaller least error than the proposal x * sl2 / slx |
| QuantDescentBest.MovesToNearest | CGGML/ggml-quants.c:660-675 | A code that moves becomes a nearest code to its proposal, and no other code changes |
| QuantDescentBest.RefineSettles | CGGML/ggml-quants.c:658-680 | The refinement uses all its sweeps, or ends with codes of which none would move |
| QuantDescentRun.Descend | CGGML/ggml-quants.c:658-680 | The sweeps in place equal their specification |
| QuantDescentRun.MakeQ3 | CGGML/ggml-quants.c:635-692 | The method in place equals its specification, for all three of its outcomes |
| QuantDescentRun.Q3IsSound | CGGML/ggml-quants.c:635-684 | With do_rmse: codes fit, the scale is optimal, the plain codes do no better, and a positive peak leaves the plain codes unchanged |
| QuantDescentBest.PeakIsFirstLargest | CGGML/ggml-quants.c:636-641 | The peak is the first value of the largest magnitude, zero only when all values are |
| QuantDescentBest.SignedCodesAreNearest | CGGML/ggml-quants.c:686-690 | The plain codes are nearest codes between -nmax and nmax-1 |
| QuantDescentBest.PlainWithinStep | CGGML/ggml-quants.c:635-692 | Without do_rmse every value decodes within half a step of |peak| / nmax, or within a whole one beyond the last level opposite to the peak |
| QuantDescentBest.RefinedWithinStep | CGGML/ggml-quants.c:635-684 | With do_rmse the squared error is at most that of missing every value by one step |
| QuantDescentRun.NegativePeakMoves | CGGML/ggml-quants.c:635-684 | An input with a negative peak whose refined codes differ from the plain ones, for every rounding |
| QuantDescentRun.MakeQp | CGGML/ggml-quants.c:1014-1084 | The method in place equals its specification |
| QuantDescentRun.QpIsSound | CGGML/ggml-quants.c:1014-1084 | The result is at least as good as each of the nine grid quantisations and has the best scale for its codes, which fit in 0..nmax |
| QuantDescentRun.GridStays | CGGML/ggml-quants.c:1033-1050 | A later grid point is taken only for a strictly smaller error |
| QuantDescentBest.BeatsEveryScale | CGGML/ggml-quants.c:1014-1084 | The result is at least as good as plain codes with any scale that puts the highest value at nmax plus k tenths, k from -4 to 4 |
| QuantDescentBest.QpWithinHalfLevel | CGGML/ggml-quants.c:1014-1084 | The squared error is at most that of missing every value by half of max / nmax |
| QuantTq1.FiveTrits | CGGML/ggml-quants.c:2257-2272 | All five trits of a ceiling-divided byte come back |
| QuantTq1.EncodeBlock | CGGML/ggml-quants.c:2257-2302 | The loops write the specified bytes of a super-block |
| QuantTq1.DecodeBlock | CGGML/ggml-quants.c:2362-2387 | The loops write the specified values in order |
| QuantTq1.RowRoundTrip | CGGML/ggml-quants.c:2352-2389 | Every trit of a row of any number of super-blocks comes back |
| QuantTq1.TernaryError | CGGML/ggml-quants.c:2244-2262 | A value is at most half of amax away from what its trit decodes to |
| QuantTq1.QuantiseRow | CGGML/ggml-quants.c:2240-2304 | Row of reals to super-blocks: each factor is the largest magnitude of its super-block, each block encodes its trits |
| QuantTq1.RowError | CGGML/ggml-quants.c:2240-2389 | Every value of a quantised row decodes to something within half of the largest magnitude of its super-block |
| QuantQ3K.PackScales | CGGML/ggml-quants.c:1186-1199 | The loop writes the specified twelve bytes |
| QuantQ3K.ScaleRoundTrip | CGGML/ggml-quants.c:1205-1208 | Every 6-bit scale comes back |
| QuantQ3K.WordAgrees | CGGML/ggml-quants.c:1247-1266 | The word-parallel unpacking reads the same scales as the scalar one, for any twelve bytes |
| QuantQ3KRow.PackMask | CGGML/ggml-quants.c:1220-1232 | The mask loop moves exactly the high bits into the mask |
| QuantQ3KRow.PackQuants | CGGML/ggml-quants.c:1233-1237 | The loop writes the specified bytes of four codes |
| QuantQ3KRow.CodeRoundTrip | CGGML/ggml-quants.c:1270-1288 | Every 3-bit code comes back, less four |
| QuantQ3KRow.DecodeBlock | CGGML/ggml-quants.c:1268-1288 | The loops write the specified values in order |
| QuantQ3KRow.RowRoundTrip | CGGML/ggml-quants.c:1243-1291 | A row of any number of super-blocks decodes to factor times (scale less 32) times (code less 4), position by position |
| QuantQ4K.PackScales | CGGML/ggml-quants.c:1427-1440 | The loop writes the specified twelve bytes, whatever they held before |
| QuantQ4K.ScaleMinRoundTrip | CGGML/ggml-quants.c:818-825 | Every scale and every minimum comes back |
| QuantQ4K.PackCodes | CGGML/ggml-quants.c:1457-1461 | The loop writes the specified bytes of two codes |
| QuantQ4K.DecodeBlock | CGGML/ggml-quants.c:1477-1487 | The loops write the specified values in order |
| QuantQ4K.RowRoundTrip | CGGML/ggml-quants.c:1467-1489 | A row of any number of super-blocks decodes to d times scale times code, less dmin times minimum, position by position |
| MetaReduce.PartnerMeaning | CGGML/ggml-backend-meta.cpp:1762-1769 | j ^ 2^r is j moved by 2^r inside its aligned block of twice that size |
| MetaReduce.BlockSums | CGGML/ggml-backend-meta.cpp:1759-1837 | With 2^k devices, after r rounds each device holds the sum over its aligned block of 2^r |
| MetaReduce.OthersMiss | CGGML/ggml-backend-meta.cpp:1759-1837 | With m < n < 2m devices, m a power of two, device m-1 never receives what device m holds |
| MetaReduceRun.Reducer.Exchange | CGGML/ggml-backend-meta.cpp:1762-1822 | A round copies to both devices of every pair the values held before the round, and takes one graph and two nodes for each of the two |
| MetaReduceRun.Reducer.Fallback | CGGML/ggml-backend-meta.cpp:1759-1837 | The loop equals the specified all-reduce and takes at most one graph and two nodes per device and step |
| MetaReduceRun.ReduceAll | CGGML/ggml-backend-meta.cpp:1690-1718 | Over a whole graph computation the counters never pass the sizes reserved for them |
| MetaSplit.DevicesCover | CGGML/ggml-backend-meta.cpp:1200-1228 | The pieces of all devices and segments cover every index once |
| MetaSplit.ExtentsAddUp | CGGML/ggml-backend-meta.cpp:763-776 | What the devices hold adds up to the dimension |
| MetaMulMat.TakeRatioLoop | CGGML/ggml-backend-meta.cpp:994-1008 | The loop equals the specified extents, or none where an assertion fails |
| MetaMulMat.RatioAddsUp | CGGML/ggml-backend-meta.cpp:986-1023 | Propagated extents add up to the dimension of the result, for every ratio |
| MetaMulMat.RatioExactly | CGGML/ggml-backend-meta.cpp:994-1008 | A ratio is taken over if and only if it is whole on every device, and gives every device its extent in the ratio of the dimensions |
| MetaMulMat.AcceptedExactly | CGGML/ggml-backend-meta.cpp:538-559 | The rule accepts exactly: both mirrored, rows of one operand split and the other mirrored, or both split along the depth with equal extents |
| MetaMulMat.SyncReplacesPartial | CGGML/ggml-backend-meta.cpp:553-556 | Under the assumption of synchronisation the state is the one without it, with partial replaced by mirrored |
| MetaMulMat.SyncedMulMat | CGGML/ggml-backend-meta.cpp:553-556 | The mirrored state that is announced comes true: over a power of two devices with matching parts every device holds the product after the all-reduce |
| MetaMulMat.SyncNeedsPowerOfTwo | CGGML/ggml-backend-meta.cpp:1759-1837 | With any other number of devices and an index on the first device past the largest power of two, some product is wrong after the all-reduce |
| MetaMulMat.RowsSplit | CGGML/ggml-backend-meta.cpp:542-547 | Rows of the first operand split: the element found at a row is that of the row in device order, for any segments |
| MetaMulMat.ColumnsSplit | CGGML/ggml-backend-meta.cpp:548-552 | The same for rows of the second operand |
| MetaMulMat.RowSplitExactly | CGGML/ggml-backend-meta.cpp:542-547 | The row split is right for all operands if and only if the devices hold the rows in order |
| MetaMulMat.ColumnSplitExactly | CGGML/ggml-backend-meta.cpp:548-552 | The same equivalence for the rows of the second operand |
| MetaMulMat.SegmentsMayReorder | CGGML/ggml-backend-meta.cpp:542-547 | An accepted state of two segments whose rows are out of order, for which the row split is wrong |
| MetaMulMat.DepthSplitExactly | CGGML/ggml-backend-meta.cpp:553-556 | With equal extents, the sum of partial products is right for all operands if and only if every device holds the same indices of both |
| MetaMulMat.OneSegmentSameParts | CGGML/ggml-backend-meta.cpp:459-477 | One segment each and equal extents give the same indices |
| MetaMulMat.SegmentsMayMismatch | CGGML/ggml-backend-meta.cpp:459-477 | Two states the source calls equal for which the sum of partial products is wrong |
| MetaMulMat.ResultIsSplit | CGGML/ggml-backend-meta.cpp:986-1023 | Whenever the rule gives a state, its extents exist and add up to the dimension it names |
| MetaMulMat.ShardedMulMat | CGGML/ggml-backend-meta.cpp:538-559 | With split rows in order and equal indices of a split depth, the result holds the product: along its axis, summed when partial, on every device when mirrored |
| MetaMulMat.OneSegmentMulMat | CGGML/ggml-backend-meta.cpp:538-559 | With one segment on either side the result holds the product whatever the rule accepts |
| MetaMulMat.ReducedIsProduct | CGGML/ggml-backend-meta.cpp:553-556 | After the all-reduce over a power of two devices every device holds the product |
| MetaBytes.ChunksFillExactly | CGGML/ggml-backend-meta.cpp:1111-1123 | The device chunks fill the tensor chunk if and only if there is one device or the split dimension has more than one unit |
| MetaBytes.ShardedTensor.SetTensor | CGGML/ggml-backend-meta.cpp:1226-1245 | Writing whole rows replaces exactly those bytes of the tensor, scattered over the devices |
| MetaBytes.ShardedTensor.GetTensor | CGGML/ggml-backend-meta.cpp:1271-1297 | Reading whole rows returns exactly those bytes |
| MetaBytes.SetThenGet | CGGML/ggml-backend-meta.cpp:1226-1245 | What was written into a tensor split along one axis in one segment is what is read back |
| OptSchedule.Dataset.Shuffle | CGGML/ggml-opt.cpp:150-161 | The permutation, or the part of it that holds the given data points, becomes what the shuffle returns for it; the rest stays |
| OptSchedule.Dataset.GetBatch | CGGML/ggml-opt.cpp:163-194 | A batch is the next slice of the permutation |
| OptSchedule.BatchesRead | CGGML/ggml-opt.cpp:163-194 | Consecutive batches read consecutive entries of the permutation |
| OptSchedule.Context.Alloc | CGGML/ggml-opt.cpp:725-780 | Which graph runs, and when the accumulators are zeroed |
| OptSchedule.Context.Eval | CGGML/ggml-opt.cpp:782-830 | What one evaluation adds to the accumulators, when it steps, and how opt_i advances |
| OptSchedule.Epoch | CGGML/ggml-opt.cpp:881-924 | From the start of a window, whatever the numbers of batches: one step per whole window of training batches, the first with what was pending, the rest left pending, opt_i at the remainder; with nothing pending before, nothing is pending and opt_i is zero afterwards if and only if both numbers of batches are whole windows |
| OptSchedule.AllAppliedExactly | CGGML/ggml-opt.cpp:905-914 | The windows of an epoch apply every training batch if and only if the training batches are a whole number of windows |
| OptFit.DeriveSizes | CGGML/ggml-opt.cpp:1015-1026 | The derived sizes are exact and both parts are whole windows |
| OptFit.EpochReadsOnce | CGGML/ggml-opt.cpp:895-924 | An epoch reads every shard once, the training shards before the split |
| OptSchedule.WindowsTile | CGGML/ggml-opt.cpp:881-924 | Windows are consecutive, of exactly one period, and leave no batch out |
| OptFit.MisalignedEpochs | CGGML/ggml-opt.cpp:881-924 | With fewer training batches than a window, filled up to whole windows by validation, any number of epochs takes no step and the gradients of all epochs stay pending |

## Left out

- Hash tables indexed by tensor in the planner, scheduler and graph models are sequences or arrays indexed by tensor number; the hash set itself is modelled separately, with one boolean per slot instead of bit words.
- DynTallocr.ChunkCell.Insert: the block array has one spare slot, because the shift of a full table reads one entry past its end.
- TallocRuns.EveryRun: requests of size zero are excluded, since an empty range can leave an empty block; the debug bookkeeping of allocated tensors is not modelled.
- PlanSafety.PlanIsSafe: graphs in topological order whose nodes are not their own sources, whose graph inputs have no operation that may run in place, and whose views have a root that is not a view itself.
- PlanSuccess.PlanSucceeds: a sufficient condition; the exact one depends on the fragmentation of every chunk, and each single abort is characterised by TensorAlloc.AllocFailsOnlyWhenFull and the specification of the release.
- PlanBuffers.NodesInTheirBuffers: the caller's lists name an existing buffer for every node and leaf; the default of buffer 0 for shorter lists is in the model without a property of its own.
- PlanReuse.Placer.PlaceGraph: tensors that have data but no buffer and the reallocation of backend buffers are not modelled.
- PlanReuse.ReusedPlanIsSafe: speaks of nodes and sources of nodes, because an unread leaf escapes the check; PlanReuse.ReusedPlanIsSafeForAll speaks of all tensors where no leaf is unread.
- SchedFinish.AssignBackends: pre-allocated tensors are those with a buffer type; events, streams and the debug printing of assignments are not modelled.
- SchedCut.SplitGraph: one copy per tensor; that a split runs out of its 30 inputs is a reported failure, as the source only checks when the list is full.
- SchedRun.SplitsPreserveMeaning: takes the readiness of the inputs as a condition, because the passes do not guarantee it when a view is pinned; SchedWhole.ScheduledRunIsCorrect derives it from what a caller can check.
- PlanSplits.ScheduledAndPlannedRunIsCorrect: takes the readiness of the inputs as a condition, which PlanWhole.PinsToMemory derives from the pins; graph inputs are leafs, operations are pure functions of their sources, graph optimization hooks are the identity, copies are blocking, and the partial copy of selected experts is not modelled.
- GraphForward.BuiltIsTopological: tensors without an operation have no sources, and views are made by view operations.
- AutodiffTrue.GradientIsTrueDerivative: scalar tensors and the operations DUP, ADD, SUB, MUL, DIV, SQR, SCALE and NEG; matrix, softmax, rope and convolution gradients, ADD1, SQRT, LOG, SIN and COS are not modelled, nor is the storage of in-place accumulation.
- QuantIq1sBest.QuantizeBlock: `qsort` is its contract (a permutation that sorts the values); the step to the nearest grid point and the packing of the indices are not modelled.
- QuantFitRun.Fit: the loops that encode and sum at once are separate methods; the caller's parameters keep the numerator of the inverse scale from becoming negative, as all callers in the source do; weights are not negative.
- QuantDescentRun.QpIsSound: values are not negative, as all calls in the file pass scales, minima or magnitudes; a negative code would wrap in its unsigned byte.
- QuantDescentRun.MakeQp: values are not negative, for the same reason; the other searches (make_qx_quants, make_qkx1_quants, IQ2, IQ3, IQ4, IQ1_M) are not modelled.
- QuantTq1.EncodeRow: half-precision conversion of the factors is not modelled, in this and in the other formats; the remaining formats are not modelled.
- MetaMulMat.ShardedMulMat: two-dimensional operands; the other operators' rules, cached states and zero-element tensors are not modelled.
- MetaBytes.ShardedTensor.SetTensor: the bytes of a device are a sequence that is replaced instead of an array; states with several segments, mirrored and partial states are not scattered.
- MetaBytes.SetThenGet: states in one segment along an axis; mirrored and partial states are not modelled, and several segments cannot be read back.
- MetaReduceRun.Reducer.Fallback: tensors are one element wide, copies finish before the additions start, and backend-specific all-reduce is not modelled.
- OptFit.Fit: gradients are the list of batches they were accumulated from; losses, predictions, optimiser arithmetic and callbacks are not modelled; random shuffles are arbitrary rearrangements.
- Rounding of floating-point arithmetic, SIMD variants and data validation.
- The registry, dynamic loading, threading, CPU kernels and tensor constructors of `CGGML/`, and everything in `CLlama/`.
- The application: audio, hotkeys, text injection, storage and user interface.
