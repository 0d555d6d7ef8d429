# Verified model of the streaming-attention runtime

This project models, in Dafny, the core of a streaming-attention runtime and of
its offline planner, and proves properties of the model.

* **Stream pipeline** (`CommandStreams`, `Clocks`, `RingProtocol`, `StreamProgram`,
  `RunProgram`, `SplitProgram`, `RaceWitness`, `SplitInterruption`, `Workspace`,
  `Executor`). Three asynchronous
  first-in-first-out streams and the host execute enqueued copies, updates, event
  records and waits; the interleaving is arbitrary and a wait captures the event
  generation that was latest when it was enqueued. Race freedom is stated with
  vector clocks over the program, and implies that every interleaving reads and
  writes the values of sequential execution; it is also necessary for conflicting
  commands to run in order. The ring of K/V slots, the resident Q
  buffer and the output slots are shown to keep that invariant for host output,
  transforms (in place or not, aliasing Q or not) and device consumers, and
  recovery restores it from any point of a run. The split executor does not recover;
  `SplitInterruption` says which interrupted calls leave the next one safe.
* **Streaming softmax** (`Softmax`, `AttentionKernel`, `AttentionReference`,
  `SplitSoftmax`, `AttentionPipeline`, `SplitPipeline`, `SoftmaxRange`, `AttentionFormula`,
  `Sums`).
  The recurrence on
  (max, sum, accumulator) and the merge of normalized outputs by log-sum-exp both
  refine one-shot softmax attention, over the reals, for any function `e` with
  `e(x + y) == e(x) * e(y)` and `e(x) > 0`, which is a hypothesis of the lemmas. The
  pipeline theorems are joined with these, so that every interleaving ends with
  attention. A kernel launched by the pipeline sees whatever its buffers hold, stale
  rows included, and folds as many rows as its arguments count.
  `AttentionFormula` writes attention out as sums over the tokens of a packed segment,
  with K and V repeated for the query heads of a group, and is what the final theorems
  deliver.
* **Block-routed attention** (`SolMeaning`, `SolKernel`, `SolStreaming`, `SolRunner`,
  `SolSegment`, `SolThreshold`, `SolFormula`, `SolMaterialized`). The streamed kernel with routing,
  16-block groups and mixed exact and approximate updates equals the simple reference.
  The theorems hold for any thresholds; `SolThreshold` shows that kernel and reference
  compute the same ones, for any square root. `SolFormula` says token by token which
  keys a row reads as they are and which as the mean of their block. Encoded projections are cut into ranges,
  stored and loaded back block by block.
* **List scheduler and memory statistics** (`Calendar`, `Schedule`, `Scheduler`,
  `ScheduleRun`, `ScheduleProperties`, `ExecutionTrace`, `TraceValidation`, `Intervals`,
  `Lifetimes`, `Occupancy`, `MemorySweep`, `SweepRun`, `BusyTime`). Time is real-valued.
  A specification has one schedule, and a schedule gives each buffer one lifetime; a
  trace is refused when a use lies outside its buffer, at predicted or measured times.
* **Work division** (`QueryTasks`, `QueryTiling`, `RangeCost`, `Partition`, `Planner`,
  `PlannerGap`, `FleetOrder`, `FleetGap`, `Dispatcher`, `DynamicCursor`, `QController`,
  `CostCounts`, `ClaimSizes`, `ControllerMeaning`). The amounts, sizes and targets these
  are built from are given their meaning in the last three.
  Each device must get a nonempty piece, so the bisected greedy partition is not
  near-optimal in general: `PlannerGap` gives three devices on which it misses. It is
  when no device between the first and the last is slower, on any candidate cell, than
  a device after it, which two devices and identical ones always satisfy. At a given
  threshold the sweep misses a partition exactly when it stops at such a device
  (`Partition.SweepMissesExactly`). Over all batches it stays within a constant of the
  optimum exactly when no such device is slower per key (`FleetGap.CompleteExactlyInOrder`).
* **Page cache and store** (`Alignment`, `Bytes`, `PageLayout`, `CachePolicy`,
  `PageCache`, `PageTable`, `PageSizes`, `PageValidation`, `QkvStore`, `QueryStore`,
  `PackedStore`). Sizes of pages and records are counted element by element.
  The cache is a class over one byte array; `CachePolicy` is its meaning on values.
  `PackedStore` goes from packed bounds to a written store and back.

Objects the program updates in place are classes, and loops are methods proved
against functions on values; the theorems are lemmas about those functions.
Methods guarded by one lock are atomic steps, so an interleaving is a sequence of
calls. Bounds lists come from packed cumulative lengths and are taken as
non-decreasing and non-negative, as `_bounds_from_cu` checks. Operations of the
scheduler are identified by their position instead of by name. Component totals of
the memory sweep are listed in order of first use instead of by name.

## Model

| member | source | states |
|---|---|---|
| CommandStreams.ReachedInvariant | src/seqattn_core/streaming/executor.py:186-377 | In every interleaving of a race-free program a stream or host step only runs after what it waits for, and each location holds the value the commands completed so far give it in program order |
| CommandStreams.InterleavingReadsSequentialValues | src/seqattn_core/streaming/executor.py:220-268 | A command about to execute reads, for each operand, exactly the value sequential execution would give it |
| CommandStreams.InterleavingWritesSequentialValues | src/seqattn_core/streaming/executor.py:186-377 | Once all writers of a location have completed, it holds its sequential value, whatever the interleaving |
| CommandStreams.Progress | src/seqattn_core/streaming/executor.py:186-377 | In every reachable state with unfinished work some stream or the host can step: no deadlock |
| CommandStreams.RunsAreBounded | src/seqattn_core/streaming/executor.py:186-377 | No run takes more than two steps per command, one to enqueue it and one to execute it |
| RaceWitness.RunsEarly | src/seqattn_core/streaming/executor.py:186-377 | A command can run before any earlier command its stream does not know to have finished: some interleaving does so |
| RaceWitness.RaceFreeExactly | src/seqattn_core/streaming/executor.py:186-377 | A program is race free exactly when every interleaving runs conflicting commands in program order |
| StreamClocks.RaceFreeAppend | src/seqattn_core/streaming/executor.py:186-377 | Appending a command keeps the program race free when the issuing stream is ordered after every conflicting earlier command |
| RingProtocol.AcquireKeeps | src/seqattn_core/streaming/tile_source.py:76-112 | Waiting for the free event of a flagged buffer orders its writer after the last reader; an unflagged buffer needs no wait |
| RingProtocol.ReleaseKeeps | src/seqattn_core/streaming/tile_source.py:119-125 | Recording the free event and raising the flag makes the buffer safe to reuse and disturbs no other buffer |
| StreamProgram.LoadKeeps | src/seqattn_core/streaming/tile_source.py:67-117 | A guarded copy into a safe buffer, ready event and compute wait leave the compute stream entitled to read exactly the new contents |
| StreamProgram.TilesKeep | src/seqattn_core/streaming/executor.py:220-268 | For any number of K/V slots, the tile loop leaves in the running state the fold of that query task and its own K/V tiles in order |
| StreamProgram.FinalizeKeeps | src/seqattn_core/streaming/executor.py:274-295 | Finalizing into Q or an output slot never overwrites rows still being copied or read |
| StreamProgram.CopyToHostKeeps | src/seqattn_core/streaming/executor.py:344-362 | The D2H copy reads the finalized rows and the slot (or Q, when the result aliases it) is handed back from the copy stream |
| StreamProgram.ConsumeKeeps | src/seqattn_core/streaming/executor.py:300-313 | With a device consumer the rows are consumed from Q or the output slot before either is reused |
| StreamProgram.TransformKeeps | src/seqattn_core/streaming/executor.py:314-342 | A transform, in place or into a fresh tensor, reads the finalized rows and keeps the protocol |
| RunProgram.TaskKeeps | src/seqattn_core/streaming/executor.py:189-364 | One query task delivers its own attention value to its rows and to no other row, and re-establishes the state between query tasks |
| RunProgram.TaskListKeeps | src/seqattn_core/streaming/executor.py:189-364 | A list of ordered query tasks delivers every row its own value; rows outside the list are unchanged; a rejected result leaves a race-free prefix |
| RunProgram.FinishDrains | src/seqattn_core/streaming/executor.py:365-377 | After the closing synchronization everything enqueued has completed |
| RunProgram.RecoverAnywhere | src/seqattn_core/streaming/executor.py:136-149 | From any race-free point of a partly enqueued run, synchronizing all streams and clearing the flags restores the state in which the next run is safe |
| RunProgram.RecoveryDrains | src/seqattn_core/streaming/workspace.py:76-82 | Recovery leaves nothing in flight and no flag set |
| SplitProgram.SplitTaskKeeps | src/seqattn_core/streaming/flash_split_executor.py:37-121 | The split executor, which uses an output slot as scratch, delivers each query task the merge of its own tiles |
| SplitProgram.SplitListKeeps | src/seqattn_core/streaming/flash_split_executor.py:37-121 | The same for a whole list of query tasks |
| SplitProgram.SplitInterleavingDelivers | src/seqattn_core/streaming/flash_split_executor.py:35-128 | Every interleaving of a completed split call leaves each row the merge of its own query task |
| SplitInterruption.InterruptedExactly | src/seqattn_core/streaming/flash_split_executor.py:57-107 | A split call that raises in a tile leaves the state the next call needs exactly when no forward pass of its query task was launched, or there is one K/V slot and the failing pass was not; otherwise the next call can overwrite Q before a launched pass has read it |
| Workspace.CudaWorkspace.Recover | src/seqattn_core/streaming/workspace.py:76-82 | Synchronizes the device and clears all pending flags; equals the recovery step of the model |
| Workspace.CudaWorkspace.WaitForOutputSlot | src/seqattn_core/streaming/executor.py:276-281 | Waits for the slot free event exactly when a copy is pending |
| Workspace.HostQKVTileSource.LoadQ | src/seqattn_core/streaming/tile_source.py:67-88 | Enqueues the guarded Q copy, the ready record and the compute wait |
| Workspace.HostQKVTileSource.LoadKV | src/seqattn_core/streaming/tile_source.py:90-117 | Enqueues the guarded K/V copy into its ring slot, the ready record and the compute wait |
| Workspace.HostQKVTileSource.ReleaseQ | src/seqattn_core/streaming/tile_source.py:119-121 | Records the Q free event on the given stream and raises its flag |
| Workspace.HostQKVTileSource.ReleaseKV | src/seqattn_core/streaming/tile_source.py:123-125 | Records the slot free event and raises its flag |
| Executor.TritonExecutor.StreamTile | src/seqattn_core/streaming/executor.py:220-268 | Loads one tile into slot index mod ring size, folds in exactly the rows loaded, hands the slot back: the model tile step, whose token counts the attention theorems depend on |
| Executor.TritonExecutor.FinalizeTask | src/seqattn_core/streaming/executor.py:274-295 | Finalizes the running state into Q or an output slot, waiting for the slot first, as the model step |
| Executor.TritonExecutor.TransformTask | src/seqattn_core/streaming/executor.py:314-342 | Runs the transform in place or into a fresh tensor, as the model step |
| Executor.TritonExecutor.DeliverTask | src/seqattn_core/streaming/executor.py:274-364 | Finalizes into Q or an output slot and delivers to the host, a transform or a consumer, as the model step; false exactly when the result is rejected |
| Executor.TritonExecutor.RunOnce | src/seqattn_core/streaming/executor.py:151-377 | Succeeds exactly when every delivery is accepted; then every row has its own value and the call has drained |
| Executor.TritonExecutor.Run | src/seqattn_core/streaming/executor.py:88-134 | As RunOnce, and after a failure recovery leaves the executor ready for the next call |
| Executor.FlashSplitExecutor.Run | src/seqattn_core/streaming/flash_split_executor.py:12-128 | Leaves every row the merge of its own tiles and the executor ready again |
| Executor.InterleavingDelivers | src/seqattn_core/streaming/executor.py:186-377 | For every number of slots, every ordered list and every interleaving, the concurrent pipeline ends with the rows of sequential execution |
| Executor.PipelineProgresses | src/seqattn_core/streaming/executor.py:186-377 | The enqueued pipeline never deadlocks |
| Softmax.FoldBlockRepresents | src/seqattn_core/kernels/streaming.py:131-172 | Folding a block keeps sum*e(max) and acc*e(max) equal to the weighted sums over the keys seen so far, masked rows included |
| Softmax.FinalizeIsAttention | src/seqattn_core/kernels/streaming.py:226-233 | A state that represents the keys finalizes to one-shot softmax attention, zero when no key is valid |
| SoftmaxRange.SumInRange | src/seqattn_core/kernels/streaming.py:131-172 | With an increasing exponential and the running maximum subtracted, the sum lies between one and the number of keys as soon as one is visible |
| AttentionKernel.FoldTileRepresents | src/seqattn_core/kernels/streaming.py:107-172 | A tile walked in padded blocks of any size leaves the state representing the keys before and in the tile, under grouped heads and the causal shift |
| AttentionFormula.HeadGroups | src/seqattn_core/kernels/streaming.py:69 | A query head reads K/V head g exactly when it is one of the g-th group of heads/kvHeads consecutive heads |
| AttentionFormula.AttentionIsFormula | src/seqattn_core/reference.py:48-110 | One-shot attention of a row is the quotient of sums over the visible keys of its segment, with K and V repeated once per query head of a group; head, causal shift and product written out on the tensors |
| AttentionKernel.StreamRow | src/seqattn_core/kernels/streaming.py:107-172 | The block loop for one query row computes the fold of the tile |
| AttentionKernel.UpdateAttentionState | src/seqattn_core/kernels/streaming.py:236-305 | Updates every valid (row, head) cell in place to the fold of its own tile and no other cell |
| AttentionKernel.FinalizeAttention | src/seqattn_core/kernels/streaming.py:190-233 | Writes each row quotient, zero where the sum is zero, and nothing outside the rows |
| AttentionReference.TileExtends | src/seqattn_core/reference.py:66-101 | One more tile extends the represented keys to the end of the tile |
| AttentionReference.AttendQueryTile | src/seqattn_core/reference.py:48-110 | A query tile over its key segment, for any K/V chunk, is one-shot attention with bottom-right causal alignment |
| AttentionReference.RowIsFormula | src/seqattn_core/reference.py:48-110 | Attention through the causal view of a packed segment is that formula for the segment |
| AttentionReference.StreamingAttentionReference | src/seqattn_core/reference.py:11-110 | For every Q and K/V chunking, causal or not, each row of each packed segment is the attention formula of its own segment; refused exactly for non-positive chunks |
| AttentionPipeline.FoldedTile | src/seqattn_core/streaming/executor.py:220-255 | An update that counts exactly the rows just copied folds the K/V tile, whatever older rows the slot still holds behind them |
| AttentionPipeline.TaskValueIsAttention | src/seqattn_core/streaming/executor.py:220-294 | The value a query task delivers denotes the attention formula of its rows, for every stale content of the buffers: each update folds the counted resident rows only and writes the counted query rows only |
| AttentionPipeline.PipelineComputesAttention | src/seqattn_core/streaming/executor.py:151-377 | End to end: every interleaving of the pipeline leaves the attention formula, or its transform, in every row |
| AttentionPipeline.BatchComputesAttention | src/seqattn_core/streaming/tasks.py:36-81 | From packed bounds on: running the query tasks built for any batch and any chunk leaves in every row the attention formula of its own segment |
| SplitSoftmax.PartialStands | src/seqattn_core/streaming/flash_split_executor.py:86-93 | A normalized partial result with its log-sum-exp stands for its own keys, also when it saw none |
| SplitSoftmax.MergeStands | src/seqattn_core/kernels/split_combine.py:65-90 | Merging two partial results stands for both key sets, negative-infinite LSE included |
| SoftmaxRange.MergeInRange | src/seqattn_core/kernels/split_combine.py:65-90 | Merging divides by something between one and two: both terms are at most one and one of them is one |
| SplitSoftmax.StandsIsAttention | src/seqattn_core/kernels/split_combine.py:65-90 | A result that stands for a key list is one-shot attention over it |
| SplitSoftmax.MergeAllStands | src/seqattn_core/streaming/flash_split_executor.py:64-110 | Folding any list of partial results stands for all their keys |
| SplitSoftmax.MergeOrderIsIrrelevant | src/seqattn_core/kernels/split_combine.py:65-90 | Any order of the keys behind the partial results gives the same outputs |
| SplitSoftmax.SplitAgreesWithFused | src/seqattn_core/streaming/flash_split_executor.py:64-110 | The merged result equals what the (max, sum, acc) executor finalizes for the same keys |
| SplitSoftmax.InitializeSplitState | src/seqattn_core/kernels/split_combine.py:16-41 | Sets the running state to the first partial result in place |
| SplitSoftmax.MergeSplitState | src/seqattn_core/kernels/split_combine.py:44-90 | Merges a partial result into the running state in place, row by row |
| SplitPipeline.SplitPipelineComputesAttention | src/seqattn_core/streaming/flash_split_executor.py:35-128 | End to end: every interleaving of the split pipeline leaves the attention formula in every row, for every stale content of the buffers |
| SolMeaning.CentroidStandsForCopies | src/seqattn_core/sparse/reference.py:76-84 | One item folded as p*len and p*value_sum weighs and moves the sums as len copies of the centroid score and mean value do |
| SolFormula.ExactIsReadAsIs | src/seqattn_core/sparse/reference.py:69-75 | A block is read exactly for a query block exactly when, token by token, its keys score above the threshold, lie in the same or a neighbouring block of 64, or key or row is of the prefix |
| SolFormula.NearAndPrefixAsIs | src/seqattn_core/sparse/reference.py:71-73 | Keys at most 64 tokens from the row, keys of the prefix, and all keys for rows of the prefix are read as they are |
| SolFormula.BlockMeanIs | src/seqattn_core/sparse/reference.py:42-46 | The centroid of a token is the mean of the rows that share its block of 64 |
| SolFormula.ReferenceIsFormula | src/seqattn_core/sparse/reference.py:34-89 | The reference row is one quotient of sums over all tokens of the segment: each token counts as itself where read as it is and as the mean of its block elsewhere |
| SolThreshold.VarianceInOnePass | src/seqattn_core/kernels/sol_preprocess.py:188-190 | The one-pass variance E[x^2] - E[x]^2 is the mean squared distance from the mean, so clamping it at zero changes nothing |
| SolThreshold.KDiagStats | src/seqattn_core/kernels/sol_preprocess.py:173-191 | Masked groups of 32 blocks give the mean and variance of one centroid component |
| SolThreshold.ReferenceThresholdIsFormula | src/seqattn_core/sparse/reference.py:48-60 | The threshold lies tau deviations above the mean route score of the query block: mean and variance over the centroids written out as sums over tokens |
| SolThreshold.KernelThresholdIsReference | src/seqattn_core/sparse/reference.py:52-60 | For every aligned chunk and any square root the kernel stores the threshold the reference computes |
| SolKernel.RouteScoreIsCentroidScore | src/seqattn_core/kernels/sol_streaming.py:138-139 | The mean of the row scores against a centroid is the centroid score of the query block |
| SolKernel.KernelRoutesLikeReference | src/seqattn_core/kernels/sol_streaming.py:139-146 | For every 64-aligned chunking the kernel decides exact or approximate as the reference does |
| SolKernel.KernelLengthIsLength | src/seqattn_core/kernels/sol_streaming.py:168-178 | The corrected block length is the true length, also for the segment tail |
| SolKernel.GroupSplits | src/seqattn_core/kernels/sol_streaming.py:113-260 | Folding the approximate blocks of a group first and its exact blocks after changes no sum |
| SolStreaming.TileMatches | src/seqattn_core/kernels/sol_streaming.py:113-268 | Any 16-block grouping of a tile sums to its blocks in order |
| SolStreaming.ReferenceMatches | src/seqattn_core/sparse/reference.py:62-85 | The block items of the kernel and the copies of the reference have the same weights and moments under the change of base |
| SolRunner.RouteGroup | src/seqattn_core/kernels/sol_streaming.py:113-147 | Splits a group into exact and approximate lanes as the reference routes them |
| SolRunner.UpdateTile | src/seqattn_core/kernels/sol_streaming.py:113-268 | One program folds a tile: the state then represents the earlier items and the tile, the exact counter is the number of blocks read exactly and both add up to the blocks |
| SolRunner.AttendRow | src/seqattn_core/sparse/runner.py:336-374 | Over all tiles of a segment a row ends with the attention of its routed items; the exact counter is the number of blocks read exactly and every block is counted once |
| SolRunner.KernelIsReference | src/seqattn_core/kernels/sol_streaming.py:20-268 | The streamed attention of a row equals the reference |
| SolRunner.AllExactIsDense | src/seqattn_core/sparse/reference.py:62-85 | When every block is exact the reference is dense attention |
| SolSegment.BalancedQRanges | src/seqattn_core/sparse/runner.py:51-66 | Chunks are nonempty, start on 64-token boundaries, cover the segment, respect the limit, number ceil(tokens/limit), and differ by at most one block of 64, the smaller first |
| SolSegment.BalancedIsMinimal | src/seqattn_core/sparse/runner.py:51-66 | No cover of the segment within the limit uses fewer chunks |
| SolSegment.BalancedIsUnique | src/seqattn_core/sparse/runner.py:51-66 | There is only one cover with that many chunks that even |
| SolSegment.AttendSegment | src/seqattn_core/sparse/runner.py:285-386 | For every aligned Q chunk and K/V tile size each row of the segment is the token-level routed formula |
| SolMaterialized.SolMaterializedSource.Prepare | src/seqattn_core/sparse/materialized.py:139-197 | Refused exactly for malformed bounds or a too small tile, keeping the ranges; otherwise the ranges partition tokens and blocks together, inside segments, and none could be longer |
| SolMaterialized.PreparedCovers | src/seqattn_core/projection/materialized.py:80-88 | Prepared ranges pass the coverage checks of the producer exactly when the input has the packed length |
| SolMaterialized.StoredRange | src/seqattn_core/sparse/materialized.py:212-244 | Storing a range gives its blocks the encodings their segment demands and leaves all other blocks alone |
| SolMaterialized.CodeIs | src/seqattn_core/sparse/materialized.py:199-210 | The code of a block encodes exactly the tokens of the segment that lie in that block of 64 |
| SolMaterialized.SolMaterializedSource.RunTiles | src/seqattn_core/projection/materialized.py:80-122 | Fails exactly when the ranges do not cover the input; afterwards every block of every segment has the encoding of its own tokens |
| SolMaterialized.SolMaterializedSource.LoadKV | src/seqattn_core/sparse/materialized.py:285-331 | Loading an aligned K/V tile delivers its rows and the encodings of exactly its blocks |
| Calendar.FirstGap | src/seqattn_core/estimation/schedule.py:23-41 | Terminates with the least start from earliest on at which all resources are free; the bisect skip loses no conflict |
| Calendar.Insort | src/seqattn_core/estimation/schedule.py:138-139 | Insertion keeps a calendar ordered and disjoint and adds exactly the new work |
| Calendar.LeastFreeMonotone | src/seqattn_core/estimation/schedule.py:120-124 | More reservations only push the least start later, so an old key is a lower bound |
| Schedule.FreeIsFits | src/seqattn_core/estimation/schedule.py:23-41 | Free in the calendars is exactly free of overlap with committed operations that share a resource |
| Schedule.CommitJustified | src/seqattn_core/estimation/schedule.py:115-139 | Each start stays the least one that respects its dependencies and the commitments before it |
| Scheduler.ReleaseChildren | src/seqattn_core/estimation/schedule.py:140-147 | Pending counts and the heap keep tracking exactly the operations whose dependencies are committed |
| ScheduleRun.CommitChronological | src/seqattn_core/estimation/schedule.py:115-139 | Under earliest_ready each committed (start, index) is the least among all ready operations and starts never decrease |
| ScheduleRun.RefreshFreshens | src/seqattn_core/estimation/schedule.py:119-124 | A re-pushed key is exact, so refreshing shrinks the set of stale keys |
| ScheduleRun.Dispatch | src/seqattn_core/estimation/schedule.py:106-149 | The lazy-refresh loop terminates; the result is justified and follows its policy, and nothing ready is left |
| ScheduleProperties.OrderedIsAcyclic | src/seqattn_core/estimation/schedule.py:148-149 | A complete schedule exists only for acyclic dependencies |
| ScheduleProperties.StuckIsCyclic | src/seqattn_core/estimation/schedule.py:148-149 | An uncommitted operation with nothing ready lies on the way to a cycle |
| ScheduleProperties.ScheduleIsValid | src/seqattn_core/estimation/schedule.py:90-159 | No operation starts before its dependencies end, and no two overlap on a resource |
| ScheduleProperties.NoBackfill | src/seqattn_core/estimation/schedule.py:118-139 | Under earliest_ready every start is the latest of the dependency ends and the last ends on its resources: no gap is filled |
| ScheduleProperties.PathFits | src/seqattn_core/estimation/schedule.py:118-125 | The end of an operation is at least the work of any dependency path below it |
| ScheduleProperties.ResourceFits | src/seqattn_core/estimation/schedule.py:23-41 | The makespan is at least the total work of every resource |
| ScheduleProperties.MakespanBounds | src/seqattn_core/estimation/schedule.py:115-159 | Makespan between the longest path or resource load and the sum of all durations, under both policies |
| ScheduleProperties.ScheduleIsUnique | src/seqattn_core/estimation/schedule.py:99-149 | Operations and policy determine the schedule: two explained schedules are equal |
| ScheduleProperties.ScheduleOperations | src/seqattn_core/estimation/schedule.py:99-151 | Reports a cycle exactly when the dependency graph has one; otherwise returns a valid, justified, bounded schedule |
| ExecutionTrace.ComputeLifetimes | src/seqattn_core/estimation/schedule.py:44-87 | One lifetime per buffer as declared; refused exactly when some use lies outside its declared ends |
| ExecutionTrace.LifetimesAreUnique | src/seqattn_core/estimation/schedule.py:44-87 | Declarations and event times determine all lifetimes |
| ExecutionTrace.LifetimesAreTraced | src/seqattn_core/estimation/schedule.py:44-87 | The lifetimes of a trace lie in its window with their uses inside, which is what the memory sweep starts from |
| ExecutionTrace.ScheduleExecution | src/seqattn_core/estimation/schedule.py:90-159 | A trace exactly when dependencies are acyclic and the schedule leaves every use inside its buffer; then events are valid and bounded and every lifetime describes its buffer |
| TraceValidation.NeighboursDecide | src/seqattn_core/estimation/schedule.py:199-206 | Comparing neighbours in time order decides exclusive use of a resource |
| TraceValidation.TraceFromMeasurements | src/seqattn_core/estimation/schedule.py:162-215 | Accepts exactly acyclic specifications whose uses are covered as predicted and as measured, with consistent timings; returns those timings and the lifetimes they give; a refusal names what is wrong, in the order of the checks |
| TraceValidation.ConsistentIsSchedule | src/seqattn_core/estimation/schedule.py:162-215 | Timings are consistent exactly when they are a valid schedule of the operations with their measured durations |
| TraceValidation.PredictionIsAccepted | src/seqattn_core/estimation/schedule.py:162-215 | The scheduler's own timings of a predicted trace meet every acceptance condition, and the lifetimes are those predicted |
| Intervals.MergeIntervals | src/seqattn_core/estimation/schedule.py:13-20 | The separated list with the same points, closed or half-open, each input inside one merged interval |
| Intervals.SeparatedUnique | src/seqattn_core/estimation/schedule.py:13-20 | Two separated lists with the same points are equal: the merged form is canonical |
| Lifetimes.ComputeLifetime | src/seqattn_core/estimation/schedule.py:44-87 | The lifetime its buffer declares, with its uses merged; refused exactly when the declared ends do not cover every use |
| Lifetimes.DescribesUnique | src/seqattn_core/estimation/schedule.py:44-87 | A buffer has one lifetime |
| Alignment.AlignUp | src/seqattn_core/paged/layout.py:18-21 | The least multiple at or above the value |
| Alignment.AlignDown | src/seqattn_core/paged/layout.py:24-27 | The greatest multiple at or below the value |
| Occupancy.HeldStep | src/seqattn_core/estimation/memory.py:99-103 | Across a quiet gap the total changes exactly by the starts and stops at its end |
| Occupancy.UsedStep | src/seqattn_core/estimation/memory.py:98 | Across a quiet gap byte-seconds grow by the total times the gap |
| MemorySweep.ComponentsPartition | src/seqattn_core/estimation/memory.py:99-102 | Component totals sum to the pool total at every instant |
| MemorySweep.ActiveWithinAllocated | src/seqattn_core/estimation/memory.py:85-103 | At no instant is more in use than is allocated |
| MemorySweep.CollectChanges | src/seqattn_core/estimation/memory.py:77-87 | The timestamped deltas are exactly the starts and stops of the lifetimes |
| SweepRun.Sweep | src/seqattn_core/estimation/memory.py:63-124 | Every instant: the last point shows the live totals; the peak is the attained maximum with its components; byte_seconds is the sum of size times lifetime |
| SweepRun.SelectedAre | src/seqattn_core/estimation/memory.py:71-76 | A pool is swept over exactly its own lifetimes of the chosen owners, each as often as the trace has it |
| SweepRun.OwnersAddUp | src/seqattn_core/estimation/memory.py:71-76 | At every instant two groups of owners that share none hold together what their union holds |
| SweepRun.MemoryStatistics | src/seqattn_core/estimation/memory.py:63-122 | For every pool, and for the chosen owners: the figures of the sweep over exactly its own lifetimes, the average times the duration is byte_seconds, and no average exceeds its peak |
| BusyTime.LengthIsMeasure | src/seqattn_core/estimation/memory.py:123-145 | Two ways to cut the same points have the same length, so busy seconds are well defined |
| BusyTime.UnionSeconds | src/seqattn_core/estimation/memory.py:123-145 | Seconds covered by at least one of the intervals |
| BusyTime.LengthsUnique | src/seqattn_core/estimation/memory.py:51-60 | Both reported lengths are determined by the covered points alone |
| BusyTime.IntersectionSeconds | src/seqattn_core/estimation/memory.py:51-60 | The two-index scan returns the length of the points both unions cover |
| QueryTiling.BuildQueryTasks | src/seqattn_core/streaming/tasks.py:46-92 | Refuses exactly the malformed requests, otherwise returns the segment-wise tiling |
| QueryTiling.RangeTasksChain | src/seqattn_core/streaming/tasks.py:66-91 | Tiles run end to end over the range, never cross a segment, name their own keys and shift, and fit the chunk |
| QueryTiling.ValidateQueryTasks | src/seqattn_core/streaming/tasks.py:95-125 | Accepts exactly ordered, non-overlapping query tasks that fit the tensors, the chunk and their segment |
| QueryTiling.BuiltTasksPass | src/seqattn_core/streaming/tasks.py:46-125 | Everything the tiler builds passes the input check |
| RangeCost.RangeTasksCost | packages/seqattn-multigpu/src/seqattn_multigpu/planning.py:108-143 | The closed form of a range estimate is the sum of the estimates of its query tasks |
| CostCounts.AmountsAreCounts | packages/seqattn-multigpu/src/seqattn_multigpu/planning.py:115-119 | Operations and bytes of the estimate, counted one by one: query rows, keys and values, and a multiplication and an addition for each product of both matrix products |
| CostCounts.BlockSecondsMeans | packages/seqattn-multigpu/src/seqattn_multigpu/planning.py:108-122 | A block takes at most t seconds exactly when the time after the overhead is enough for the counted operations, upload and download |
| RangeCost.SegmentMonotone | packages/seqattn-multigpu/src/seqattn_multigpu/planning.py:108-143 | More rows of a segment never cost less, wherever the blocks fall |
| RangeCost.RangeMonotone | packages/seqattn-multigpu/src/seqattn_multigpu/planning.py:125-143 | The estimate is monotone in both ends of the range |
| Planner.CandidateCuts | packages/seqattn-multigpu/src/seqattn_multigpu/planning.py:146-153 | Sorted distinct cuts: exactly the segment bounds and the aligned positions inside segments |
| Planner.FurthestCut | packages/seqattn-multigpu/src/seqattn_multigpu/planning.py:156-185 | The binary search returns the furthest cut within the threshold, or none |
| Planner.PartitionForThreshold | packages/seqattn-multigpu/src/seqattn_multigpu/planning.py:188-228 | Computes the greedy sweep |
| Partition.GreedySound | packages/seqattn-multigpu/src/seqattn_multigpu/planning.py:188-228 | Whatever the sweep returns is a cut vector that meets the threshold |
| Partition.GreedyAhead | packages/seqattn-multigpu/src/seqattn_multigpu/planning.py:188-228 | The sweep stays at or ahead of every cut vector that meets the threshold |
| Partition.GreedyComplete | packages/seqattn-multigpu/src/seqattn_multigpu/planning.py:188-228 | The sweep succeeds at every threshold some cut vector meets, unless a middle device is too slow for a cell those cuts leave to a later device |
| Partition.SweepMissesExactly | packages/seqattn-multigpu/src/seqattn_multigpu/planning.py:188-228 | At a threshold some partition meets, the sweep fails exactly when it reaches a middle device at a cell that device cannot finish in time |
| Partition.PartitionBoundsCells | packages/seqattn-multigpu/src/seqattn_multigpu/planning.py:188-228 | With every middle device at most `slack` slower on a cell than later devices, no cut vector in time leaves a middle device further behind |
| Partition.SimpleFleets | packages/seqattn-multigpu/src/seqattn_multigpu/planning.py:188-228 | Two arbitrary devices, and any number of identical ones, have no slower middle device |
| Planner.BracketNear | packages/seqattn-multigpu/src/seqattn_multigpu/planning.py:241-272 | After 60 halvings the best cuts are within U/2^60 of every attainable threshold; without a result every attainable threshold is above U - U/2^60 |
| Planner.HalvedTimes | packages/seqattn-multigpu/src/seqattn_multigpu/planning.py:255-272 | Halving k times divides by the k-th power of two |
| Planner.PartitionQueryRanges | packages/seqattn-multigpu/src/seqattn_multigpu/planning.py:231-272 | Nonempty adjoining ranges over all queries, one per device, from a greedy sweep, with makespan within U/2^60 of every attainable partition |
| Planner.NearlyOptimal | packages/seqattn-multigpu/src/seqattn_multigpu/planning.py:231-272 | With every middle device at most `extra` slower on a cell than later ones, no partition beats the result by more than `extra` + U/2^60 |
| Planner.NearOptimal | packages/seqattn-multigpu/src/seqattn_multigpu/planning.py:231-272 | With no middle device slower on a cell than a later device, so for two devices or identical ones, no partition beats the result by more than U/2^60 |
| Planner.WithinSlowestCell | packages/seqattn-multigpu/src/seqattn_multigpu/planning.py:231-272 | For any devices the result is within U/2^60 of the larger of the optimum and the slowest single cell of a middle device |
| PlannerGap.GreedyMissesOptimum | packages/seqattn-multigpu/src/seqattn_multigpu/planning.py:188-272 | Three devices on which near-optimality fails: a partition of makespan 11 exists, and whatever the bisection tries the planner can only return cuts of makespan at least 50 |
| FleetOrder.OrderedIsNearlyFirst | packages/seqattn-multigpu/src/seqattn_multigpu/planning.py:108-143 | Per-key order of the devices bounds how much slower a middle device is on any cell of any batch by a constant |
| FleetGap.DisorderMisses | packages/seqattn-multigpu/src/seqattn_multigpu/planning.py:188-272 | With a middle device slower per key than a later one, for every gap some batch leaves every result of the sweep more than that gap above a partition |
| FleetGap.CompleteExactlyInOrder | packages/seqattn-multigpu/src/seqattn_multigpu/planning.py:188-272 | The sweep stays within a constant of every partition of every batch exactly when no middle device is slower per key than a later one |
| CachePolicy.RunConsistent | src/seqattn_core/paged/cache.py:109-215 | In every run of lookups and inserts the regions stay disjoint, within size, and hold exactly the stored pages |
| CachePolicy.Transparent | src/seqattn_core/paged/cache.py:118-215 | Filled from a fixed source, every present page holds what the source delivers |
| CachePolicy.PinnedStays | src/seqattn_core/paged/cache.py:109-181 | A pinned page, once present, is never evicted and keeps its payload |
| CachePolicy.LeastRecentlyUsed | src/seqattn_core/paged/cache.py:109-181 | Under every interleaving of lookups and inserts the rolling region is the most recently touched distinct pages, in order of last touch |
| CachePolicy.VictimIsOldest | src/seqattn_core/paged/cache.py:172-181 | A page leaves only on an insert that misses a full region, and its last touch is older than that of every page that stays |
| CachePolicy.PinnedPresent | src/seqattn_core/paged/cache.py:109-181 | The pinned pages present are exactly those inserted before |
| CachePolicy.AccessesAreTouches | src/seqattn_core/paged/cache.py:109-181 | When each miss is followed by its own insert, the region holds the most recently accessed distinct pages |
| PageCache.KVPageCache.constructor | src/seqattn_core/paged/cache.py:27-94 | Aligned slots that hold the largest page, as many as the capacity allows and the pages need, the pinned share given to the first pages |
| PageCache.HotSlotsAre | src/seqattn_core/paged/cache.py:76-79 | n slots are pinned exactly when there are as many and they lie within the share, or n is one and any share is asked for |
| PageCache.KVPageCache.FindSlot | src/seqattn_core/paged/cache.py:109-116 | Finds exactly the present pages and moves a rolling page to the recent end |
| PageCache.KVPageCache.Get | src/seqattn_core/paged/cache.py:118-158 | A hit delivers exactly the bytes inserted, tail rows zeroed; a miss writes nothing; counters match |
| PageCache.KVPageCache.Put | src/seqattn_core/paged/cache.py:160-215 | Inserts under the policy, keeps a present page as it is, and refuses exactly when no slot can ever hold the page; the peak rises to the bytes of the slots in use |
| PageCache.KVPageCache.DistinctSlots | src/seqattn_core/paged/cache.py:71-94 | Present pages occupy distinct slots |
| PageCache.OtherSlotHolds | src/seqattn_core/paged/cache.py:96-99 | Overwriting one slot leaves the bytes of every other page alone |
| Dispatcher.ClaimMeans | packages/seqattn-multigpu/src/seqattn_multigpu/dynamic.py:250-297 | A claim starts at the frontier, stays in one segment, fits the request and passes the runner check |
| ClaimSizes.TailWorkersAre | packages/seqattn-multigpu/src/seqattn_multigpu/dynamic.py:266-270 | n workers can expect a full request exactly when n - 1 full requests leave something |
| ClaimSizes.TailLimitIs | packages/seqattn-multigpu/src/seqattn_multigpu/dynamic.py:271-274 | The limit is the last row whose predecessors are below the balanced share of what is left |
| ClaimSizes.ClaimSize | packages/seqattn-multigpu/src/seqattn_multigpu/dynamic.py:250-297 | A claim takes rows exactly while they fit the request, the segment and the balanced share, at least one, and its flags say which of the last two cut it short |
| Dispatcher.ClaimServes | packages/seqattn-multigpu/src/seqattn_multigpu/dynamic.py:250-262 | With keys for every nonempty segment a claim returns nothing exactly after cancellation or full coverage |
| Dispatcher.TasksTileAPrefix | packages/seqattn-multigpu/src/seqattn_multigpu/dynamic.py:230-297 | Under any interleaving of claims, retirements and cancellation the query tasks tile a prefix in claim order |
| Dispatcher.OneWorkerIsStatic | packages/seqattn-multigpu/src/seqattn_multigpu/dynamic.py:250-297 | One worker with balance factor at least 1 claims exactly the ranges of build_query_tasks |
| DynamicCursor.DynamicQueryCursor.Claim | packages/seqattn-multigpu/src/seqattn_multigpu/dynamic.py:250-297 | The locked method is one claim step of the model |
| DynamicCursor.DynamicQueryCursor.Retire | packages/seqattn-multigpu/src/seqattn_multigpu/dynamic.py:234-238 | Counts each retired device once and never below zero |
| DynamicCursor.DynamicQueryCursor.AdvanceEmptySegments | packages/seqattn-multigpu/src/seqattn_multigpu/dynamic.py:240-248 | Skips used-up and empty segments |
| QController.PlanLimits | packages/seqattn-multigpu/src/seqattn_multigpu/dynamic.py:81-96 | Aligned bounds and first size, refused exactly when no aligned block fits or the first size is outside capacity |
| ControllerMeaning.LimitsAre | packages/seqattn-multigpu/src/seqattn_multigpu/dynamic.py:81-96 | The bounds are the outermost aligned sizes inside the given ones and the first size is the least that is large enough |
| QController.TargetSound | packages/seqattn-multigpu/src/seqattn_multigpu/dynamic.py:124-134 | The target is aligned, positive and within bounds |
| ControllerMeaning.TargetIsLeast | packages/seqattn-multigpu/src/seqattn_multigpu/dynamic.py:124-134 | An aligned size within bounds hides the upload of its keys and values behind its computation exactly when it is at least the target |
| ControllerMeaning.TargetMonotone | packages/seqattn-multigpu/src/seqattn_multigpu/dynamic.py:124-134 | More compute throughput never lowers the target and more upload bandwidth never raises it |
| ControllerMeaning.AveragesFollow | packages/seqattn-multigpu/src/seqattn_multigpu/dynamic.py:136-161 | Each average moves toward the rate of its own measurement, or keeps its value where there is none |
| ControllerMeaning.StepIs | packages/seqattn-multigpu/src/seqattn_multigpu/dynamic.py:163-175 | One step is nothing in the dead band, and otherwise the target or the nearest aligned size a factor maxStep away |
| QController.AdjustMoves | packages/seqattn-multigpu/src/seqattn_multigpu/dynamic.py:163-175 | One adjustment moves toward the target without crossing it, by at least one alignment outside the dead band |
| QController.Settles | packages/seqattn-multigpu/src/seqattn_multigpu/dynamic.py:163-175 | With a fixed target the size reaches the dead band or the target within |target - q| / alignment observations and stays there |
| QController.SteadySettles | packages/seqattn-multigpu/src/seqattn_multigpu/dynamic.py:136-175 | Measurements that leave the averages unchanged drive the size by exactly those adjustments |
| QController.DynamicQController.Observe | packages/seqattn-multigpu/src/seqattn_multigpu/dynamic.py:136-175 | Averages stay positive and the size aligned and in bounds after every measurement; the new size is one adjustment toward the new target |
| PageTable.BuildPageDescriptors | src/seqattn_core/paged/layout.py:147-175 | Builds the page table segment by segment |
| PageSizes.TargetIsLargest | src/seqattn_core/paged/layout.py:156-157 | A full page is the largest whole number of blocks within the target size, or one block where none fits |
| PageSizes.PageIs | src/seqattn_core/paged/layout.py:159-174 | Page i of a segment starts at i full pages, holds a full page or what is left, is padded to whole blocks, and exists exactly while there are tokens left |
| PageSizes.RecordIs | src/seqattn_core/storage/records.py:36-63 | A record is keys, values and under INT8 both scale arrays without gaps, sized by counting their elements, padded by less than one I/O unit |
| PageSizes.QRecordIs | src/seqattn_core/storage/records.py:15-25 | A query record is its counted rows, padded by less than one I/O unit |
| PageTable.KVRecordsLaid | src/seqattn_core/storage/records.py:31-66 | K/V records are aligned and each starts where the one before ends |
| PageTable.QRecordsLaid | src/seqattn_core/storage/records.py:10-28 | Query records are aligned and contiguous |
| PageTable.RecordsDisjoint | src/seqattn_core/storage/records.py:31-66 | Records never overlap |
| PageTable.KVRecordRegions | src/seqattn_core/storage/records.py:36-63 | The K, V and two scale regions of a record are disjoint and inside its payload |
| PageTable.BuildKVRecords | src/seqattn_core/storage/records.py:31-66 | The loop with a running offset computes those records |
| PageValidation.PagesBySegment | src/seqattn_core/paged/layout.py:178-186 | Groups pages by segment in order, refused exactly for an unknown segment |
| PageValidation.ValidatePages | src/seqattn_core/storage/qkv_store.py:192-221 | Accepts exactly tables whose pages cover every segment contiguously with aligned, consistently padded records |
| PageValidation.BuiltTablesPass | src/seqattn_core/storage/qkv_store.py:192-221 | Aligned contiguous records over the builder's pages are accepted |
| QkvStore.AlignedFileWriter.CopyTensor | src/seqattn_core/storage/direct_io.py:74-80 | Copies into the bounce buffer, refused exactly when it does not fit |
| QkvStore.AlignedFileWriter.Write | src/seqattn_core/storage/direct_io.py:110-129 | Writes the front of the buffer at an aligned offset, refused exactly when unaligned |
| QkvStore.WritePages | src/seqattn_core/storage/qkv_writer.py:131-178 | Stores K/V pages exactly when number and shapes match; the file is the records back to back |
| QkvStore.RoundTrip | src/seqattn_core/storage/qkv_store.py:104-137 | For every page of every writable table the file holds exactly the payload stored |
| QkvStore.BuiltTablesWritable | src/seqattn_core/storage/records.py:31-66 | The tables the builder makes are writable |
| QkvStore.ReadKV | src/seqattn_core/storage/qkv_store.py:104-137 | Delivers what the file holds, tail rows zeroed; a short read is an error |
| QueryStore.WriteQueryPages | src/seqattn_core/storage/qkv_writer.py:102-122 | The same for query pages |
| QueryStore.RowsRoundTrip | src/seqattn_core/storage/qkv_store.py:88-102 | Every query page reads back the rows stored for it |
| QueryStore.ReadQ | src/seqattn_core/storage/qkv_store.py:88-102 | Delivers the rows, then zeros |
| PackedStore.KVTableSound | src/seqattn_core/storage/qkv_writer.py:63-70 | For any packed bounds and layout the K/V table built is accepted and its records can be written |
| PackedStore.QTableSound | src/seqattn_core/storage/qkv_writer.py:57-69 | For any packed bounds the query table built is accepted and its records can be written |
| PackedStore.NvmeQKVWriter.constructor | src/seqattn_core/storage/qkv_writer.py:25-70 | Both page tables laid out from the packed bounds |
| PackedStore.NvmeQKVWriter.WritePages | src/seqattn_core/storage/qkv_writer.py:89-178 | Saved exactly when every page has its number and shape; the store then opens and every page of it holds what was handed in |
| PackedStore.OpenStore | src/seqattn_core/storage/qkv_store.py:192-221 | Opens exactly when both page tables fit their bounds and files |
| PackedStore.NvmeQKVWriter.ReadBackKV | src/seqattn_core/storage/qkv_store.py:104-137 | Reading any K/V page of a saved store delivers what was written for it, tail rows zeroed |
| PackedStore.NvmeQKVWriter.ReadBackQ | src/seqattn_core/storage/qkv_store.py:88-102 | Reading any query page of a saved store delivers its rows, then zeros |

## Left out

- Device execution: kernel launch parameters, strides, pinning, `record_stream`, NVTX ranges, timing events and statistics counters; only stream and event order and the mathematics are modelled.
- Rounding: all arithmetic on scores, times and rates is over the reals; INT8 values are opaque bytes in cache and store, and the INT8 scale factors of the kernels are not modelled.
- Tile sources that recompute K/V from hidden states, and the Sage3 and FlashAttention kernels: foreign calls; the split executor takes a partial forward pass as given.
- SplitInterruption.InterruptedExactly: covers a raising forward pass and a raising merge in the tile loop; the split executor has no recovery of its own in the source, and none is modelled.
- A device consumer synchronizes itself; its own streams are not modelled.
- SolThreshold.KernelThresholdIsReference: the square root is any function, and the constant log2(e) is one shared scale.
- AttentionReference.AttendQueryTile: each K/V tile is folded as one block, as the reference does, while the kernel lemmas cover every block size.
- AttentionKernel.UpdateAttentionState: the running max, sum and accumulator tensors are one two-dimensional array of records.
- SolSegment.AttendSegment: the copies and events of the block-routed executor are not modelled, only its chunk and tile loops.
- SolMaterialized.SolMaterializedSource.RunTiles: the projection slots and their events are not modelled; projection and encoding are functions of token positions, and Q, K and V rows are one value each.
- Planner.NearOptimal: the condition on cells is sufficient for a batch; a slower middle device can go unnoticed when the sweep never meets its slow cell, which `Partition.SweepMissesExactly` decides for each threshold, and `FleetGap.CompleteExactlyInOrder` is exact over all batches up to a constant.
- TraceValidation.TraceFromMeasurements: names, provenance, labels and metadata are not modelled; timings are given by position, pools by their alignments.
- SweepRun.MemoryStatistics: pool capacities are not modelled; a trace of zero duration, on which the average is undefined, is outside the precondition.
- PageCache.KVPageCache.Get: scale buffers must be supplied, as INT8 calls demand; the refusal for missing ones is a precondition.
- QkvStore.ReadKV: a page whose region offsets exceed its record, which only a hand-edited manifest can contain, is outside the precondition.
- QController.DynamicQController.Observe: the reset on a changed workload signature is the plain reset and is not listed separately.
- Manifests, file descriptors, fsync and renames: files are byte sequences.
- Plan sizing, configuration search, projection cursors, padding masks, the simulated storage timeline, reports and plots.
