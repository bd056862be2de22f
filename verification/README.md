# Verified models of llm-compressor's algorithms

A Dafny model of the parts of llm-compressor whose behaviour is hard to see from one function: searches
and protocols that keep state, printers that must be readable again, and formulas written in two ways.
Tensor kernels are abstract functions, numbers are exact, and exceptions are results. Each file is one
module; `dfyconfig.toml` lists them all.

- **Grid searches** (`GridSearch`, `GridSearchTheorems`): the eager early-stopping search over shrink
  factors, its chunked form and the importance-weighted one. The error of a candidate on a channel is an
  arbitrary function.
- **Fused observers** (`FusionProtocol`, `FusedObservers`, `ObserverCleanup`): the protocol by which
  query, key and value observers share one scale, first as a state machine over any run of calls, then as
  the objects with their flags and mutual calls.
- **Calibration data** (`LengthAwareBatching`, `LengthAwareSampler`, `RankPartition`, `MinMax`): the
  sampler and why its order is the best one, the partition among ranks, and min/max statistics that
  depend on neither batching nor distribution.
- **Name sets** (`NameSets`): grouping tensor names into sets, with a closed form.
- **Memory profiler** (`MemoryProfiler`): timelines of storages over any interleaving of events.
- **Lifecycle** (`LifecycleMachine`, `Lifecycle`): modifiers driven by events, over whole runs in which
  any hook may raise on any call and report success or failure as it likes.
- **Blocks and attention** (`Blocks`, `LinearAlgebra`, `Mla`): block-wise flattening and dequantisation
  as index maps, and multi-head latent attention in its prefill and its absorbed decode form over caches
  that are written in place.
- **Documentation navigation** (`NavToml`, `NavReplacement`, `NavParsing`): the TOML printer, the bracket
  scanner that replaces its output, and a parser for the String, Array and Inline Table sections of
  TOML v1.0.0 as far as a navigation uses them.
- **XTML chat encoder** (`XtmlMessages`, `XtmlToolResults`, `XtmlToolResultTheorems`, `XtmlSegments`,
  `XtmlEncoder`, `XtmlRenderer`, `XtmlParsing`, `XtmlReader`, `XtmlForest`, `XtmlRecords`, `XtmlMeaning`,
  `XtmlRoundTrip`, `XtmlTheorems`, `XtmlDecoded`, `XtmlNesting`, `XtmlToolOrder`): the sorting of tool results, the
  rendering methods with the image prompts they hand out, a stack machine that nests the tags of segments,
  a reader that turns the tree into records of who said what, and the same records taken from the messages.
- **Intermediates cache** (`CacheValues`, `CacheSharing`, `CacheDevices`, `Cache`, `CachePinning`,
  `Prefetch`): offloading with an identity memo, where tensors land, sizes, pinning, and iteration with a
  background fetch.

`Prelude`, `Strings` and `Arith` hold what several modules use.

A method that changes state is proved against a function of its inputs and old state; the lemmas about
that function carry the results. A failing call is an `Err` or a `false`.

## Where the code does not do what is said of it

- `src/llmcompressor/observers/mse_quant.py:164` says the chunked search takes up to `chunk_size - 1`
  extra steps. That is right exactly when the chunk size divides the patience (1 for a patience below 1),
  and only while nothing after the eager stop improves (`OvershootExactly`, `OvershootUnbounded`).
- A sampler whose batch size neither divides the number of samples nor exceeds it need not be optimal
  (`OptimalExactly`).
- Name-set matching raises when a target runs two matches ahead of the sets completed *before* the name,
  not after it (`FailsExactly`).
- The lifecycle keeps batch events in order by the last one that *passed* the order check, accepted or
  not (`PassesExactly`). An event that passes and is then rejected, for want of a loss or because a hook
  raised, still moves it: accepted batch starts can be adjacent, exactly around such events
  (`AdjacentStartsExactly`; `LosslessUnlocksStart`, `RaisingHookUnlocksStart`), and accepted events can be
  out of order around a rejected batch start (`OutOfOrder`, `RaisingHookBreaksOrder`).
- A hook that raises leaves its flag unset. `on_end` is called again exactly when a call of it raised,
  and `on_start` exactly when its initialization reported failure (`EndsAgainExactly`,
  `StartsAgainExactly`); both can happen to every modifier that ends or starts at index 0
  (`EndsExactly`, `StartsExactly`).
- A title with a control character is printed as it is, and the result is not TOML (`ParsesExactly`).
- An empty image prompt vanishes from the rendering, and a control token as a prompt is structure
  (`DecodesExactly`). A rendering does not tell apart messages that differ in other ways than those of
  `XtmlMeaning.KeptExactly`: messages of other roles and entries that are no dictionaries are gone, so is
  reasoning without thinking, blank reasoning is none, and a call whose name is null is one named "None".
- Pinning copies a tensor for every reference to it, so shared tensors no longer share and the cache
  grows (`SharedAfterPinExactly`, `PinMemorySizeExactly`).
- `src/llmcompressor/pipelines/cache.py:37-38` says that with no offload device nothing is offloaded. But
  the memo of offloaded tensors belongs to the class and ignores the device, so a cache may give out
  another one's copy on the CPU (`OffloadedAnyway`). A value lands on the device that is asked for exactly
  when the memo has no copy of its tensors elsewhere (`LandsExactly`).

## Model

| member | source | states |
|---|---|---|
| `GridSearch.BestStepIsEarliestLeast` | src/llmcompressor/observers/mse_quant.py:120-134 | a channel keeps the earliest of the candidates with the least error among those tried |
| `GridSearch.CandidatesAreEvenlySpaced` | src/llmcompressor/observers/mse_quant.py:114-119 | candidate 0 is the observed end, each next one is a `grid`-th of it less, and candidate `grid` is nothing |
| `GridSearch.RangesReport` | src/llmcompressor/observers/mse_quant.py:114-134 | every range end is the observed end less as many `grid`-ths of it as the number of the earliest candidate with the least error |
| `GridSearch.FirstKeepsRange` | src/llmcompressor/observers/mse_quant.py:114-134 | a channel whose least error is at candidate 0 keeps its observed range, in every search |
| `GridSearch.EagerSearch` | src/llmcompressor/observers/mse_quant.py:99-141 | the in-place loop stops at the first candidate after which `patience` candidates in a row improved no channel (a patience below 1 acts as 1), or at the end, and leaves in both range arrays the range of the best candidate so far |
| `GridSearch.ComputeChunk` | src/llmcompressor/observers/mse_quant.py:211-252 | a chunk extends the running best of every channel from `idx` to `idx + size` candidates, and leaves the ranges of those |
| `GridSearch.ChunkedSearch` | src/llmcompressor/observers/mse_quant.py:144-208 | the same ranges and errors, with the stop tested at chunk boundaries only |
| `GridSearch.ImportanceSearch` | src/llmcompressor/observers/imatrix.py:252-325 | the importance search: one step more, and a patience of 0 or less never stops it |
| `GridSearchTheorems.ChunkedCoversEager` | src/llmcompressor/observers/mse_quant.py:166-208 | the chunked search tries every candidate the eager search tries |
| `GridSearchTheorems.ChunkedIsNoWorse` | src/llmcompressor/observers/mse_quant.py:114-208 | on every channel it keeps the eager candidate or one with a strictly smaller error; the ranges are equal when the eager search does not stop early |
| `GridSearchTheorems.OvershootBound` | src/llmcompressor/observers/mse_quant.py:155-208 | when nothing after the eager stop improves, it goes at most chunk - 1 plus the distance of the patience (1 for a patience below 1) to the next multiple of the chunk size too far |
| `GridSearchTheorems.OvershootIsReached` | src/llmcompressor/observers/mse_quant.py:155-208 | for every chunk size and patience some errors reach that bound |
| `GridSearchTheorems.OvershootExactly` | src/llmcompressor/observers/mse_quant.py:155-168 | the least bound, for all errors and every patience; 2 * (chunk - 1) always is one, and the documented chunk - 1 is one if and only if the chunk size divides the patience, or 1 for a patience below 1 |
| `GridSearchTheorems.OvershootUnbounded` | src/llmcompressor/observers/mse_quant.py:155-208 | with improvements after the eager stop, for chunks of more than one candidate, no bound holds |
| `GridSearchTheorems.SingleStepChunks` | src/llmcompressor/observers/mse_quant.py:166-208 | chunks of one candidate stop where the eager search stops, for all errors |
| `GridSearchTheorems.ImportanceCoversEager` | src/llmcompressor/observers/imatrix.py:288-325 | without weights the importance search tries every eager candidate, and exactly those when the eager search stops early on a positive patience; any other patience makes it try them all |
| `GridSearchTheorems.ImportanceIsNoWorse` | src/llmcompressor/observers/imatrix.py:288-325 | so it keeps the eager candidate or a strictly better one |
| `FusionProtocol.StepKeeps` | src/llmcompressor/observers/fusion.py:60-101 | observing and asking for parameters keep a group all-present or all-absent |
| `FusionProtocol.AllOrNothing` | src/llmcompressor/observers/fusion.py:60-101 | after every run of observations and requests, in any order and with repeats, the statistics of a group are all present or all absent, and no request is pending without statistics |
| `FusionProtocol.DeletedOnlyWhenConsumed` | src/llmcompressor/observers/fusion.py:81-101 | when the statistics of a group vanish, every member has asked for its parameters since they appeared |
| `FusionProtocol.RequestsAreConsumptions` | src/llmcompressor/observers/fusion.py:81-101 | a pending request stems from a `get_qparams` of the current round |
| `FusionProtocol.ConsumedByAllIsDeleted` | src/llmcompressor/observers/fusion.py:81-101 | once every member has asked within a round, the statistics are gone |
| `FusionProtocol.SameRoundSameScale` | src/llmcompressor/observers/base.py:78-123 | any two requests of one round see the same statistics and so the same global scale |
| `FusionProtocol.AbsMaxIs` | src/llmcompressor/observers/base.py:85-96 | the fold over the collected statistics is the largest absolute bound: reached, and not exceeded |
| `FusionProtocol.AbsMaxUnordered` | src/llmcompressor/observers/base.py:85-96 | it does not depend on the order in which the members are collected |
| `FusedObservers.FusionHandler.GetFusedStatistics` | src/llmcompressor/observers/fusion.py:60-78 | the missing members are observed on their weights, and the result lists the statistics of all; with `Forward` it terminates on the set of members without statistics |
| `FusedObservers.FusionHandler.MaybeDeleteStatistics` | src/llmcompressor/observers/fusion.py:81-101 | the last member to ask deletes everything and clears every request; any other only marks itself |
| `FusedObservers.Observer.Forward` | src/llmcompressor/observers/base.py:126-144 | nothing happens for an empty value or a member with statistics; otherwise the whole group ends with statistics |
| `FusedObservers.Observer.GetGlobalScale` | src/llmcompressor/observers/base.py:78-96 | the largest absolute value over all members of the group, after the missing ones were observed |
| `FusedObservers.Observer.GetQParams` | src/llmcompressor/observers/base.py:99-123 | fails exactly without statistics; otherwise returns the scale of the whole group and asks for deletion |
| `FusedObservers.Observer.DeleteStatistics` | src/llmcompressor/observers/base.py:164-176 | with the check the cooperative protocol, without it only this member |
| `FusedObservers.Fuse` | src/llmcompressor/observers/fusion.py:44-57 | every handler is linked with all the others and remembers its module |
| `ObserverCleanup.CleanUp` | src/llmcompressor/utils/dist.py:68-86 | after the loop no group that lies inside the list has statistics or pending requests, from any state of the groups |
| `ObserverCleanup.ListedHaveAsked` | src/llmcompressor/utils/dist.py:68-86 | a listed member has asked, or its statistics are gone |
| `ObserverCleanup.CleanedAway` | src/llmcompressor/utils/dist.py:68-86 | a group whose members are all listed ends as it began |
| `LengthAwareBatching.LevelByLevel` | src/llmcompressor/datasets/utils.py:366-386 | kept and padded tokens counted length by length: the samples in full batches, and in touched ones |
| `LengthAwareBatching.BatchesBounded` | src/llmcompressor/datasets/utils.py:366-386 | in any batching the samples at least v long cover the full batches and fit into the touched ones |
| `LengthAwareBatching.DescendingIsOptimal` | src/llmcompressor/datasets/utils.py:282-296 | cutting the descending order into consecutive batches removes and adds the fewest tokens among all orders of the same samples, when the batch size divides their number or exceeds it |
| `LengthAwareBatching.OptimalExactly` | src/llmcompressor/datasets/utils.py:282-296 | for which numbers of samples and batch sizes that holds for all lengths: divisible, or a single batch; for truncation and for padding |
| `LengthAwareBatching.RaggedIsNotOptimal` | src/llmcompressor/datasets/utils.py:282-296 | otherwise concrete lengths for which another order is strictly better in both |
| `LengthAwareSampler.Sampler.Iterate` | src/llmcompressor/datasets/utils.py:389-393 | so many samples as asked for, or all if there are fewer: the longest ones, longest first |
| `LengthAwareSampler.Sampler.CalculateBatchStats` | src/llmcompressor/datasets/utils.py:355-386 | the two totals are the tokens removed and added over consecutive batches |
| `LengthAwareSampler.TotalOverhead` | src/llmcompressor/datasets/utils.py:366-386 | the loop over the batches accumulates both |
| `LengthAwareSampler.LongestFirst` | src/llmcompressor/datasets/utils.py:344-353 | every prefix of the order holds the longest samples |
| `LengthAwareSampler.SamplerIsOptimal` | src/llmcompressor/datasets/utils.py:282-296 | the sampler removes and adds the fewest tokens when the batch size divides the number of samples |
| `RankPartition.BalancedSizes` | src/llmcompressor/datasets/utils.py:245-254 | every rank gets S div D or S div D + 1 samples (exact arithmetic) |
| `RankPartition.Ends` | src/llmcompressor/datasets/utils.py:245-254 | the ranges begin at 0 and end at S |
| `RankPartition.Tiles` | src/llmcompressor/datasets/utils.py:245-254 | every sample belongs to exactly one rank |
| `RankPartition.NonEmptyExactly` | src/llmcompressor/datasets/utils.py:245-254 | every rank has a sample exactly when there are at least as many samples as ranks |
| `MinMax.StaticMinMaxObserver.UpdateStatistics` | src/llmcompressor/observers/min_max.py:33-42 | the new minimum of a channel is the least of what it is shown and its old minimum, and the new maximum the greatest; the first value starts them |
| `MinMax.BatchingDoesNotMatter` | src/llmcompressor/observers/min_max.py:33-42 | accumulated over any batching they are those of all samples together |
| `MinMax.AccumulatedAreExtremes` | src/llmcompressor/observers/min_max.py:33-41 | in any batching each minimum is a value that the channel was shown, and no value it was shown is below it; likewise for the maximum |
| `MinMax.PartsReduce` | src/llmcompressor/observers/base.py:147-161 | MIN and MAX over the parts give the statistics of the whole |
| `MinMax.SharesTile` | src/llmcompressor/datasets/utils.py:245-254 | the shares of the first n ranks are the samples before the next rank begins |
| `MinMax.DistributionDoesNotMatter` | src/llmcompressor/observers/base.py:147-161 | observation spread over ranks and reduced equals observation of all samples by one process: the least and the greatest value of every channel |
| `NameSets.MatchNamesSetEager` | src/llmcompressor/entrypoints/model_free/helpers.py:34-71 | the nested loops: every name that matches a target is in one set, in order, or left over, and something is left over only if it holds a name; a failure names two matching names in order |
| `NameSets.RunIs` | src/llmcompressor/entrypoints/model_free/helpers.py:47-66 | after k names without a clash, set i maps every target to the i-th name that matches it and the pending set holds the next ones |
| `NameSets.RunExactly` | src/llmcompressor/entrypoints/model_free/helpers.py:47-71 | the outcome for all inputs: a failure exactly on a clash, otherwise the closed form with the leftovers |
| `NameSets.FailsExactly` | src/llmcompressor/entrypoints/model_free/helpers.py:47-66 | it raises exactly when, at some name, a target has two more matches than the sets completed before that name |
| `NameSets.NoTargets` | src/llmcompressor/entrypoints/model_free/helpers.py:47-71 | without targets every name completes an empty set |
| `MemoryProfiler.MemoryProfile.Add` | src/llmcompressor/entrypoints/model_free/memory.py:21-32 | every timeline grows by one entry, the device one by the size |
| `MemoryProfiler.MemoryProfile.Subtract` | src/llmcompressor/entrypoints/model_free/memory.py:34-35 | adding the negated size |
| `MemoryProfiler.MemoryProfile.Length` | src/llmcompressor/entrypoints/model_free/memory.py:45-46 | the common length of the timelines |
| `MemoryProfiler.TensorProfiler.Track` | src/llmcompressor/entrypoints/model_free/memory.py:95-110 | a storage is added once per tracked address, and a finalizer is registered with it |
| `MemoryProfiler.TensorProfiler.Untrack` | src/llmcompressor/entrypoints/model_free/memory.py:112-118 | a tracked address is removed and its size subtracted; others are ignored |
| `MemoryProfiler.TensorProfiler.Exit` | src/llmcompressor/entrypoints/model_free/memory.py:121-132 | all addresses are dropped, so later finalizers change nothing |
| `MemoryProfiler.AddedIsEven` | src/llmcompressor/entrypoints/model_free/memory.py:21-32 | timelines stay equally long, and only the device changes by the size |
| `MemoryProfiler.AlwaysAccurate` | src/llmcompressor/entrypoints/model_free/memory.py:95-118 | in every interleaving of allocations, repeated sightings and frees with address reuse: equal timelines, and the current value of a device is the total size of its tracked live storages |
| `MemoryProfiler.FrozenAfterExit` | src/llmcompressor/entrypoints/model_free/memory.py:112-132 | nothing changes after the exit |
| `MemoryProfiler.TimelinesRecord` | src/llmcompressor/entrypoints/model_free/memory.py:21-46 | a timeline holds exactly the totals the device had |
| `MemoryProfiler.PeakIsMostHeld` | src/llmcompressor/entrypoints/model_free/memory.py:42-43 | the peak is the largest total that was ever held |
| `LifecycleMachine.AlwaysAnIndex` | src/llmcompressor/core/events/event.py:94-181 | `current_index` never raises for a positive number of steps per epoch, and is the step in epochs |
| `LifecycleMachine.StepIsSound` | src/llmcompressor/modifiers/modifier.py:71-175 | every operation of the lifecycle keeps the hook discipline of every modifier, whichever hooks raise in it |
| `LifecycleMachine.HooksInEveryRun` | src/llmcompressor/modifiers/modifier.py:71-175 | in every run of initialize, events, finalize and reset, with hooks that raise or report failure on any call: the flags say exactly which hooks have returned; `on_start` only from initialize; neither `on_end` nor `on_update` once an ending hook returned; no initialization after a successful one, nothing after a successful finalization, and everything else after a successful initialization |
| `LifecycleMachine.StartsAgainExactly` | src/llmcompressor/modifiers/modifier.py:71-95 | `on_start` is called more than once exactly when an initialization that called it reported failure and it was called again |
| `LifecycleMachine.StartsExactly` | src/llmcompressor/modifiers/modifier.py:71-95 | `on_start` is called at most once in every run exactly for the modifiers without a start, with a start after 0, or with an end at 0 or before |
| `LifecycleMachine.StartsTwice` | src/llmcompressor/core/lifecycle.py:54-114 | for any other: initialize, reset, initialize, with `on_initialize` reporting failure, calls it twice |
| `LifecycleMachine.EndsAgainExactly` | src/llmcompressor/modifiers/modifier.py:146-175 | `on_end` is called more than once exactly when a call of it raised and it was called again |
| `LifecycleMachine.EndsExactly` | src/llmcompressor/modifiers/modifier.py:146-175 | `on_end` is called at most once in every run exactly for the modifiers without an end or with one after 0 |
| `LifecycleMachine.EndsTwice` | src/llmcompressor/core/lifecycle.py:151-213 | for any other: a batch end in which `on_end` raises, and another batch end, calls it twice |
| `LifecycleMachine.AcceptedExactly` | src/llmcompressor/core/lifecycle.py:151-230 | an event is accepted exactly when it passes the checks, is not a loss event without a loss, and no modifier refuses it or raises in a hook it gets to; the last event moves as soon as it passes |
| `LifecycleMachine.OrderIs` | src/llmcompressor/core/lifecycle.py:42-50 | batch start, loss, pre-step, post-step, batch end: an event may follow an earlier one, a batch start anything but itself |
| `LifecycleMachine.PassesExactly` | src/llmcompressor/core/lifecycle.py:215-230 | in every run a batch event passes exactly when the lifecycle is open and the event is in order after the latest one that passed since the last reset |
| `LifecycleMachine.BatchEventsInOrder` | src/llmcompressor/core/lifecycle.py:215-230 | events that passed come in the fixed order up to the next batch start that passed, in every run |
| `LifecycleMachine.StartsAreApart` | src/llmcompressor/core/lifecycle.py:215-230 | between two batch starts that passed, another batch event passed |
| `LifecycleMachine.AdjacentStartsExactly` | src/llmcompressor/core/lifecycle.py:183-230 | two accepted batch starts have no accepted batch event between them exactly when some event between them passed the order check and all that did were rejected |
| `LifecycleMachine.OutOfOrder` | src/llmcompressor/core/lifecycle.py:183-230 | accepted batch events with no accepted batch start after the first are out of order only around a rejected batch start |
| `LifecycleMachine.UnlocksExactly` | src/llmcompressor/core/lifecycle.py:183-230 | an event that is out of order gets in order by another event exactly when that one passes and is a batch start (for a second batch start: is not), accepted or not |
| `LifecycleMachine.RaisingHookUnlocksStart` | src/llmcompressor/core/lifecycle.py:200-203 | for every modifier: a loss event with a loss whose hook raises lets a second batch start through |
| `LifecycleMachine.RaisingHookBreaksOrder` | src/llmcompressor/core/lifecycle.py:200-203 | for every modifier: after a post-step event, a batch start whose hook raises lets a loss event through |
| `LifecycleMachine.LosslessUnlocksStart` | src/llmcompressor/core/lifecycle.py:183-230 | a second batch start is rejected; but after a rejected loss event without a loss it is accepted |
| `LifecycleMachine.ResetStartsOver` | src/llmcompressor/core/lifecycle.py:54-70 | a reset returns whatever finalizations raise, and the lifecycle is as it was created |
| `Lifecycle.Modifier.InitializeModifier` | src/llmcompressor/modifiers/modifier.py:71-95 | the whole new state and the hooks called, step by step up to the hook that raises; refused when initialized or finalized |
| `Lifecycle.Modifier.FinalizeModifier` | src/llmcompressor/modifiers/modifier.py:97-112 | the same for finalization; a raising hook leaves the modifier as it was |
| `Lifecycle.Modifier.UpdateEvent` | src/llmcompressor/modifiers/modifier.py:114-175 | the same for an event: start, end and update as the index and the event type say, each flag set only after its hook returned |
| `Lifecycle.CompressionLifecycle.InitializeLifecycle` | src/llmcompressor/core/lifecycle.py:73-114 | the recipe is initialized in order, up to the first failure |
| `Lifecycle.CompressionLifecycle.ValidateEventOrder` | src/llmcompressor/core/lifecycle.py:215-230 | accepts by the fixed order of batch events and remembers the last one accepted here |
| `Lifecycle.CompressionLifecycle.HandleEvent` | src/llmcompressor/core/lifecycle.py:151-213 | checks, the order, the missing loss, then every modifier |
| `Lifecycle.CompressionLifecycle.FinalizeLifecycle` | src/llmcompressor/core/lifecycle.py:117-148 | every modifier is finalized, once |
| `Lifecycle.CompressionLifecycle.ResetLifecycle` | src/llmcompressor/core/lifecycle.py:54-70 | the active modifiers are finalized, exceptions of their hooks ignored, and the state starts over |
| `Blocks.TransposeAt` | src/llmcompressor/modeling/deepseekv32/model.py:356-362 | swapping the middle dimensions of a tensor swaps the indices |
| `Blocks.FlattenBlocksAt` | src/llmcompressor/observers/helpers.py:81-97 | element (r, c) goes to group (r / h, c / w) at offset (r % h) * w + c % w |
| `Blocks.HomeOfElement` | src/llmcompressor/observers/helpers.py:81-97 | the numbering by groups has an inverse ... |
| `Blocks.ElementOfHome` | src/llmcompressor/observers/helpers.py:81-97 | ... on both sides: it is a bijection |
| `Blocks.FlattenGroupsAt` | src/llmcompressor/observers/helpers.py:73-80 | flattening by rows and by groups only renumbers |
| `Blocks.WeightDequantAt` | src/llmcompressor/modeling/deepseekv32/model.py:353-372 | the forward and inverse chains compose: every element is multiplied by the scale of its block, for every shape divisible by the block |
| `LinearAlgebra.CombineAt` | src/llmcompressor/modeling/deepseekv32/model.py:504-507 | the contraction over the first index, component by component |
| `LinearAlgebra.Absorb` | src/llmcompressor/modeling/deepseekv32/model.py:504-511 | moving a matrix across an inner product |
| `LinearAlgebra.CombineApplied` | src/llmcompressor/modeling/deepseekv32/model.py:522-523 | combining products is the product of the combination |
| `Mla.Layer.ExpandedIsSplit` | src/llmcompressor/modeling/deepseekv32/model.py:475-482 | a head of the expanded latent is its key rows and its value rows applied to the latent |
| `Mla.Layer.SameDots` | src/llmcompressor/modeling/deepseekv32/model.py:484-511 | the decode scores of the last token equal its prefill scores, for all heads, ranks and lengths |
| `Mla.Layer.PrefillMaskAt` | src/llmcompressor/modeling/deepseekv32/model.py:486-491 | a position is attended to exactly when it is not later than the row and the indexer picked it |
| `Mla.Layer.RowIs` | src/llmcompressor/modeling/deepseekv32/model.py:473-494 | a prefill row in the layer's own functions: per head the values weighted by the softmax of the masked, scaled scores, and then the output projection |
| `Mla.Layer.Causal` | src/llmcompressor/modeling/deepseekv32/model.py:857-864 | a prefill row does not depend on later tokens, for every softmax that gives masked positions no weight |
| `Mla.Layer.LastRowIsUnmasked` | src/llmcompressor/modeling/deepseekv32/model.py:487-519 | the causal mask hides nothing from the last row |
| `Mla.Layer.DecodeIsLastPrefillRow` | src/llmcompressor/modeling/deepseekv32/model.py:471-525 | the absorbed decode form over caches of the same tokens equals the last row of the prefill, for every softmax and every choice of positions |
| `Mla.Layer.DecodeIsPrefillRow` | src/llmcompressor/modeling/deepseekv32/model.py:471-525 | decoding a prompt token by token gives all rows of its prefill, for every softmax that ignores masked positions |
| `Mla.Attention.Store` | src/llmcompressor/modeling/deepseekv32/model.py:471-472 | the cache rows are written in place and the caches hold exactly the latents and rotary keys of the history |
| `Mla.Attention.Forward` | src/llmcompressor/modeling/deepseekv32/model.py:439-525 | in every reachable state a decoded token gets the last row of a prefill of everything before it and itself |
| `NavToml.NavToToml` | docs/scripts/zensical_gen_files.py:340-361 | the recursive printer appends the lines of every item, title and child list |
| `NavToml.ReplaceNavBlock` | docs/scripts/zensical_gen_files.py:364-396 | finds the first match, scans to the bracket that closes the array over strings, escapes and comments, and cuts there; both error cases |
| `NavToml.FindNavExactly` | docs/scripts/zensical_gen_files.py:366-370 | the match is the first place at the start of a line where the pattern matches, and there is none exactly when no line start matches |
| `NavToml.FindBracketEnd` | docs/scripts/zensical_gen_files.py:373-394 | the scan by position and depth |
| `NavReplacement.EscapeIsCharByChar` | docs/scripts/zensical_gen_files.py:336-337 | the two replacements escape every character on its own |
| `NavReplacement.BracketEndIsScan` | docs/scripts/zensical_gen_files.py:373-394 | scanning positions is scanning the text that is left |
| `NavReplacement.QuotedIsTransparent` | docs/scripts/zensical_gen_files.py:336-352 | the scan runs over every quoted title, whatever it contains |
| `NavReplacement.BodyIsTransparent` | docs/scripts/zensical_gen_files.py:340-361 | the scan runs over every printed list and comes out at the same depth |
| `NavReplacement.MatchExactly` | docs/scripts/zensical_gen_files.py:366 | the match at a position is that of the pattern: `nav`, white space, `=`, white space, and the bracket |
| `NavReplacement.FoundAgain` | docs/scripts/zensical_gen_files.py:366-370 | the first match stays where it is when a block replaces what was there |
| `NavReplacement.CutAgain` | docs/scripts/zensical_gen_files.py:364-394 | a replacement changes neither the text before the array nor the text after it |
| `NavReplacement.GenerateAgain` | docs/scripts/zensical_gen_files.py:416-427 | for all configurations, items and blocks: replacing in a generated file is replacing in the original, and a refused file is always refused |
| `NavReplacement.CleanAgain` | docs/scripts/zensical_gen_files.py:433-438 | the same after resetting the navigation |
| `NavParsing.StringRead` | docs/scripts/zensical_gen_files.py:336-337 | an escaped string parses to itself exactly when it has no control character |
| `NavParsing.NavRoundTrip` | docs/scripts/zensical_gen_files.py:340-361 | parsing the printed navigation as TOML gives the items, one table for each title, skipped values left out |
| `NavParsing.ParsesExactly` | docs/scripts/zensical_gen_files.py:340-361 | the printed navigation is TOML exactly when no printed title or path has a control character |
| `XtmlToolResults.ToolCallIdIndex` | src/llmcompressor/modeling/kimi_k3/encoding_k3.py:263-289 | the index maps every id to the position and name of its first call |
| `XtmlToolResults.ResolveRun` | src/llmcompressor/modeling/kimi_k3/encoding_k3.py:333-371 | a run is sorted by (position, offset) and named after its calls, or kept when a message is unresolved |
| `XtmlToolResults.NormalizeToolResults` | src/llmcompressor/modeling/kimi_k3/encoding_k3.py:292-373 | the loop over the conversation computes the run-by-run normalisation |
| `XtmlToolResultTheorems.SortIsStable` | src/llmcompressor/modeling/kimi_k3/encoding_k3.py:355 | the run is sorted by position, and answers to one call keep their order |
| `XtmlToolResultTheorems.SortPermutes` | src/llmcompressor/modeling/kimi_k3/encoding_k3.py:355 | nothing is lost or added |
| `XtmlToolResultTheorems.OthersStay` | src/llmcompressor/modeling/kimi_k3/encoding_k3.py:316-331 | every other message keeps its index, and tool messages stay tool messages |
| `XtmlToolResultTheorems.NormalizeTwice` | src/llmcompressor/modeling/kimi_k3/encoding_k3.py:304-306 | normalising twice is normalising once |
| `XtmlToolResultTheorems.CompleteRunIsInCallOrder` | src/llmcompressor/modeling/kimi_k3/encoding_k3.py:333-371 | in a run that answers every call once, message k answers call k and carries its name |
| `XtmlToolOrder.ResultsAreRenderedInCallOrder` | src/llmcompressor/modeling/kimi_k3/encoding_k3.py:565-595 | in any conversation such a run right after its assistant message is rendered in call order, result k with index k and the name of call k |
| `XtmlSegments.FillConcat` | src/llmcompressor/modeling/kimi_k3/encoding_k3.py:69-85 | filling pieces one after the other threads the image prompts; the first failure is the outcome |
| `XtmlRenderer.ImagePromptState.NextPrompt` | src/llmcompressor/modeling/kimi_k3/encoding_k3.py:35-42 | hands out the prompts in order, the placeholder without prompts, and fails when none is left |
| `XtmlRenderer.AppendText` | src/llmcompressor/modeling/kimi_k3/encoding_k3.py:69-85 | text is split at placeholders only when prompts were given |
| `XtmlRenderer.RenderContent` | src/llmcompressor/modeling/kimi_k3/encoding_k3.py:384-397 | strings, parts and images of a content in order |
| `XtmlRenderer.RenderAssistant` | src/llmcompressor/modeling/kimi_k3/encoding_k3.py:409-455 | reasoning, response and calls, with arguments or the saved block |
| `XtmlRenderer.RenderMessages` | src/llmcompressor/modeling/kimi_k3/encoding_k3.py:538-602 | every message by its role, the tool index and calls since the last assistant message, and the failures |
| `XtmlRenderer.BuildChatSegments` | src/llmcompressor/modeling/kimi_k3/encoding_k3.py:487-651 | the whole rendering is the filling of the pieces of the normalised conversation, with every prompt used |
| `XtmlParsing.UnescapeEscaped` | src/llmcompressor/modeling/kimi_k3/encoding_k3.py:88-89 | unescaping an escaped attribute value gives the value |
| `XtmlParsing.HeaderRead` | src/llmcompressor/modeling/kimi_k3/encoding_k3.py:92-105 | a tag with its attributes is read back from its header text, for all values |
| `XtmlParsing.PrintRun` | src/llmcompressor/modeling/kimi_k3/encoding_k3.py:98-117 | printed elements are read back by the stack machine, whatever follows |
| `XtmlReader.ReadExactly` | src/llmcompressor/modeling/kimi_k3/encoding_k3.py:54-117 | reading a tree gives these records exactly when the tree is the one they are written as: reader and writer are inverse both ways |
| `XtmlForest.RendersMessages` | src/llmcompressor/modeling/kimi_k3/encoding_k3.py:538-602 | the pieces of the messages print the tree that the messages stand for |
| `XtmlRecords.ChatIsWritten` | src/llmcompressor/modeling/kimi_k3/encoding_k3.py:487-651 | reading the tree of a rendering gives the records taken from its messages and options directly, for every conversation |
| `XtmlMeaning.VanishesExactly` | src/llmcompressor/modeling/kimi_k3/encoding_k3.py:538-602 | a message that renders leaves one record, or none exactly when it is not a dictionary or has another role |
| `XtmlMeaning.CallsKept` | src/llmcompressor/modeling/kimi_k3/encoding_k3.py:425-455 | two lists of calls leave the same records exactly when they agree on names (null being "None"), JSON blocks, and argument keys, types and values, in order |
| `XtmlMeaning.KeptExactly` | src/llmcompressor/modeling/kimi_k3/encoding_k3.py:384-602 | two messages leave the same records exactly when neither leaves one, or they have the same role and agree on name, content, calls, declared tools, and, when thinking, on reasoning that is not blank |
| `XtmlDecoded.PlaceAfter` | src/llmcompressor/modeling/kimi_k3/encoding_k3.py:564-596 | the calls that tool results are matched with are those of the last assistant message, and results are counted from there |
| `XtmlRoundTrip.FillsPieces` | src/llmcompressor/modeling/kimi_k3/encoding_k3.py:30-85 | filling uses as many prompts as there are images, in order, and changes nothing else if every prompt can be told from structure |
| `XtmlTheorems.Decodes` | src/llmcompressor/modeling/kimi_k3/encoding_k3.py:487-651 | from the segments alone, for every conversation: who speaks, the name, the content with its images, the reasoning, and the calls with argument keys, types and values, as the messages have them; and the channel left open |
| `XtmlTheorems.DecodesExactly` | src/llmcompressor/modeling/kimi_k3/encoding_k3.py:54-117 | for every successful rendering, that is recovered exactly when no image prompt is empty or a control token |
| `XtmlDecoded.MessageIsDecoded` | src/llmcompressor/modeling/kimi_k3/encoding_k3.py:538-602 | for message k the record at its place, in terms of the message's own keys: who speaks, content, reasoning, every call with its number, name, block or arguments and their types, and for a tool result its number and the name from `tool`, `name` or the call |
| `XtmlDecoded.ReasoningIsDecoded` | src/llmcompressor/modeling/kimi_k3/encoding_k3.py:420-424 | thinking, the reasoning read back is `reasoning_content`, or `reasoning` when that is missing, null or empty; blank text is none |
| `XtmlDecoded.EffortFailsExactly` | src/llmcompressor/modeling/kimi_k3/encoding_k3.py:521-527 | thinking, an effort other than low, high and max makes the rendering fail, and nothing else about it does |
| `XtmlDecoded.DeclarationSays` | src/llmcompressor/modeling/kimi_k3/encoding_k3.py:458-485 | declared and added tools are announced as such, with the tools at the end |
| `XtmlDecoded.FormatSays` | src/llmcompressor/modeling/kimi_k3/encoding_k3.py:622-646 | the announced response format is the one asked for, with its schema at the end |
| `Strings.DigitsRead` | src/llmcompressor/modeling/kimi_k3/encoding_k3.py:433-435 | a rendered index is read back as the number, with no leading zero |
| `XtmlTheorems.ImagesInOrder` | src/llmcompressor/modeling/kimi_k3/encoding_k3.py:30-51 | the prompts appear once each and in order, and their number is that of the images in the tree; without prompts every image is the placeholder |
| `XtmlTheorems.SameSegmentsSameConversation` | src/llmcompressor/modeling/kimi_k3/encoding_k3.py:487-651 | conversations with the same segments have the same records and the same prompts |
| `XtmlTheorems.SameTextExactly` | src/llmcompressor/modeling/kimi_k3/encoding_k3.py:487-651 | two renderings have the same text, control tokens and image places exactly when their conversations have the same records and leave the same channel open |
| `XtmlNesting.TagsAreNested` | src/llmcompressor/modeling/kimi_k3/encoding_k3.py:98-117 | unless a prompt is a token that makes a tag, the tags are balanced and nested, and a generation prompt leaves exactly the message and its channel open |
| `XtmlTheorems.ImageChecksExactly` | src/llmcompressor/modeling/kimi_k3/encoding_k3.py:35-51 | rendering with prompts succeeds exactly when it does without and there are as many prompts as image parts and placeholders in rendered text |
| `CacheValues.RoundTrip` | src/llmcompressor/pipelines/cache.py:303-411 | onloading an offloaded value gives the value, nested containers included, on its own devices or the onload device |
| `CacheValues.MovedNowhere` | src/llmcompressor/pipelines/cache.py:376-379 | without an onload device every tensor keeps its device |
| `CacheValues.PinKeepsOnload` | src/llmcompressor/pipelines/cache.py:143-164 | pinning does not change what a value onloads to |
| `CacheSharing.OffloadPlaces` | src/llmcompressor/pipelines/cache.py:361-379 | a tensor offloaded again to the same device gets the place it has, within a value and in any later offload |
| `CacheSharing.RefsArePlaces` | src/llmcompressor/pipelines/cache.py:361-379 | one map takes every tensor to what is stored for it: shared tensors stay shared |
| `CacheDevices.TensorLandsExactly` | src/llmcompressor/pipelines/cache.py:361-379 | a tensor is offloaded to the wanted device exactly when the memo has no copy of it or has one there |
| `CacheDevices.LandsExactly` | src/llmcompressor/pipelines/cache.py:361-411 | all tensors of a value land on the wanted device exactly when that holds of each; so with no offload device nothing is moved exactly when the memo has no copy elsewhere |
| `CacheDevices.OffloadedAnyway` | src/llmcompressor/pipelines/cache.py:37-38 | a cache with no offload device gives back the copy on the CPU that another cache made |
| `CacheDevices.SharedAcrossDevices` | src/llmcompressor/pipelines/cache.py:48-50 | a value offloaded to two devices shares its tensors exactly when each of them was in the memo, needed a copy for the first device, or needs none for the second |
| `CacheSharing.SizeItems` | src/llmcompressor/pipelines/cache.py:213-234 | the traversal counts every stored tensor once and every primitive value |
| `CacheSharing.SharedAfterPinExactly` | src/llmcompressor/pipelines/cache.py:143-164 | two references to one tensor share it after pinning exactly when neither was replaced |
| `CacheSharing.PinSizeExactly` | src/llmcompressor/pipelines/cache.py:143-164 | pinning never shrinks the cache, and keeps its size exactly when every non-empty tensor it replaces is referred to once |
| `CachePinning.PinMemorySizeExactly` | src/llmcompressor/pipelines/cache.py:124-164 | the same for pinning the selected keys of one batch |
| `CachePinning.PinningCanGrow` | src/llmcompressor/pipelines/cache.py:143-164 | a tensor stored under two keys is stored twice once its batch is pinned |
| `Cache.OffloadValue` | src/llmcompressor/pipelines/cache.py:343-411 | the recursion over a value with the identity memo |
| `Cache.IntermediatesCache.Fetch` | src/llmcompressor/pipelines/cache.py:104-122 | the loop over the entries: for every key the onloaded entry of the batch if the key is selected, and nothing for any other key |
| `Cache.IntermediatesCache.Update` | src/llmcompressor/pipelines/cache.py:166-175 | the batch is updated with the values as they are seen, and every other batch is fetched as before |
| `Cache.PutAllLooksUp` | src/llmcompressor/pipelines/cache.py:166-175 | an update gives its own keys the new entries and leaves every other key with what it had |
| `Cache.RemoveAllLooksUp` | src/llmcompressor/pipelines/cache.py:190-191 | deleting names takes away the keys before the first missing one and nothing else |
| `Cache.IntermediatesCache.Delete` | src/llmcompressor/pipelines/cache.py:177-191 | the names are deleted one after the other up to the first that is not there: those keys are gone, and every other key has what it had |
| `Cache.IntermediatesCache.Append` | src/llmcompressor/pipelines/cache.py:193-202 | a new last batch with the values |
| `Cache.IntermediatesCache.PinMemory` | src/llmcompressor/pipelines/cache.py:124-164 | no fetch of any batch changes; no tensor of a selected entry is left unpinned on the CPU, and the other entries keep their references |
| `Cache.IntermediatesCache.Size` | src/llmcompressor/pipelines/cache.py:204-238 | the bytes on every device, each distinct tensor of all batches once |
| `Prefetch.RunKeeps` | src/llmcompressor/pipelines/cache.py:244-295 | in every interleaving of generator, background thread and consumer: the batches yielded so far are those of the start, and the fetch in flight is that of the next batch |
| `Prefetch.AtMostOneFetch` | src/llmcompressor/pipelines/cache.py:281-295 | never more than one fetch in flight, and never more yields than batches |
| `Prefetch.PrefetchYieldsTheSame` | src/llmcompressor/pipelines/cache.py:240-295 | every run yields what every run of the plain iterator yields, for consumers that change only batches up to the one they received last |
| `Prefetch.NeverStuck` | src/llmcompressor/pipelines/cache.py:281-295 | a generator that has been asked can go on until all batches are yielded |
| `Prefetch.EveryStepProgresses` | src/llmcompressor/pipelines/cache.py:281-295 | whatever happens then, it yields one more batch or leaves the thread less to do |
| `Prefetch.WaitIsBounded` | src/llmcompressor/pipelines/cache.py:281-295 | in every run the consumer waits for at most as many steps as the thread has work |
| `Prefetch.StopsExactly` | src/llmcompressor/pipelines/cache.py:281-295 | a run cannot go on exactly when all batches are yielded and the consumer asks for another |

## Left out

- Floating-point rounding, dtypes, NaN and overflow: reals and unbounded integers; the initial best error of a search is above every error.
- `calculate_qparams`, `fake_quantize`, `generate_gparam` and the kernels behind them: they are not part of this repository; errors, measures and softmax are arbitrary functions.
- RankPartition.BalancedSizes: exact arithmetic; the source divides in floating point.
- FusedObservers.Observer.Forward: models the tensor-group strategy, where every observer of a group has a global scale; other strategies skip the fusion calls.
- FusedObservers.Observer.DeleteStatistics: called where the source's callers call it, with statistics present or through the protocol.
- The activation-importance hook of the importance observer and the validation of its weights: `ImportanceSearch` is stated for arbitrary errors, weighted or not.
- Real collectives and asynchronous communication: a reduction returns the minimum or maximum.
- LengthAwareSampler.Sampler.Iterate: the sort is any order by descending length; how ties fall is not fixed.
- Datasets without an `input_ids` column, logging and progress bars.
- NameSets.MatchNamesSetEager: names come in the sorted order the source computes; the natural sort key is not modelled, and the pattern match is an arbitrary relation.
- MemoryProfiler.TensorProfiler.Exit: one use of the profiler; entering the same object again and the caught exception are not modelled. Garbage collection is any order of free events.
- Setting `current_index` and epochs with an invocation count: the lifecycle never sets them.
- Lifecycle.Modifier.UpdateEvent: a hook returns, reports or raises as its caller is told; what else hooks do (calling the lifecycle again, say) is not modelled.
- Blocks.FlattenBlocksAt: shapes divisible by the block, as the source asserts; padding before it, activations and attention states are not modelled.
- Mla.Attention.Forward: one sequence of the batch on one process; the indexer's choice is an arbitrary function of the tokens so far, and the memo of the dequantised weight is the matrix itself. Several tokens only come at position 0, since the causal mask has no columns for cached ones.
- NavParsing.NavRoundTrip: tables of several pairs, other value types and escapes by code point are not parsed, since the printer never writes them.
- Reading the YAML navigation, expanding globs and titles from files.
- XtmlRenderer.BuildChatSegments: starts from messages whose tool-call arguments and tools are already normalised (parsed, sorted, dumped to JSON text); `normalize_message` on malformed JSON arguments is not idempotent and is not modelled. Values stand as the text `str` gives them, tool calls are dictionaries, and the fixed texts have no outer white space to strip.
- `extract_response_schema` and batched conversations.
- Cache.OffloadValue: containers that are walked share one constructor with their keys or fields; tensors are never changed in place, devices are compared as values, and the memo holds entries for ever.
- Cache.IntermediatesCache.PinMemory: stored values are trees with one owner each, so replacing a tensor in place is returning the new tree.
- `from_dataloader`: an offload with an onload device, as `RoundTrip` has it, for every batch.
- Streams, events and the executor's shutdown in `iter_prefetch`: only the order in which things happen.
- Example scripts, command lines, model loading and saving, recipes and the modifier factory.
