# Verified model of the DynoGraph benchmark

A model in Dafny of the parts of the DynoGraph repository that carry its arguments: how random edges are
generated in parallel as if serially, how a sliding window of edges is kept up to date or rebuilt, how a
batch becomes the compressed lists that a STINGER graph starts from, what the growable array costs, and the
JSON library that results travel through.

- `PrngEngine`, `Rmat`, `RmatDataset`, `Threads`: the counter-based engine with its skip-ahead, the edge
  generator on top of it, and the parallel loop in which every thread skips ahead on a copy of its own.
- `Algorithms`, `Counting`, `Collections`, `Edges`, `Batches`: the standard algorithms as verified methods,
  filtering, deduplication and sorting by degree.
- `ReferenceImpl`, `EdgeListDataset`, `Windows`, `EpochSchedule`, `AlgDataManager`, `Runs`, `Benchmark`: the
  reference graph as the meaning of a run, the dataset and its window, what a whole run is and what holds for
  every one, and the batch, epoch and trial loops that take such runs.
- `StingerCsr`: from a batch to offsets, neighbours, directions, weights and times.
- `Pvector`: the growable array with its amortised cost.
- `JsonValue`, `JsonPointer`, `JsonAccess`, `JsonPatch`, `JsonOperations`, `JsonDiff`, `JsonFlatten`,
  `JsonRestore`, `JsonDump`, `JsonLayout`, `JsonLexer`, `JsonParser`, `JsonLexemes`, `JsonRoundTrip`,
  `JsonReading`, `Decimal`: pointers, patches, flattening, printing and parsing, and the four inverse pairs.

Code that works step by step is modelled by methods and classes over arrays and fields, proved against
functions; what the source promises is proved about those functions. A parallel loop is a set of worker
objects whose iterations are interleaved in any order.

## Where the code and its promises differ

Each of these is proved as an exact condition, and for each some input is shown on which the promise fails.

- Edge skip-ahead multiplies in 64 bits: it is right exactly when the number of engine calls fits
  (`Rmat.DiscardReachesIff`, `Rmat.LongSkipFails`).
- The engine's comparison tells positions apart that have the same future: a used-up block and the start of
  the next one (`PrngEngine.SamePosition`, `PrngEngine.UsedUpBlock`).
- Asking an RMAT dataset for a batch out of order gives the batch of an in-order run for the first batch only,
  since timestamps start over (`RmatDataset.JumpMatchesIff`); the place in the stream is right exactly when
  nothing was drawn again before it (`RmatDataset.StartsAtJumpIff`, `RmatDataset.OneRerollShifts`).
- The reference graph marks a fresh entry by weight -1, so a pair that comes to have that weight is counted again
  (`ReferenceImpl.CountStaysRightIff`, `ReferenceImpl.RunCountIsRightIff`,
  `ReferenceImpl.MarkedWeightIsCountedTwice`).
- The assertion before the STINGER lists are built looks at neighbouring edges only. A pair that occurs twice
  apart, and not in reverse, gets through and is labelled as going both ways
  (`StingerCsr.DirectionsAreTrueIff`, `StingerCsr.LoneRepeatPassesAssertion`).
- A copy to an index of an array assigns there, where section 4.5 of RFC 6902 asks for an insertion
  (`JsonOperations.CopyIsAddIff`, `JsonOperations.CopyReplaces`).
- An array index in a pointer may have white space or a sign before it and anything after it, where section 4 of
  RFC 6901 asks for digits (`JsonAccess.StoiIsLoose`).
- Bare control characters from 0x10 to 0x1F are taken in strings, where section 7 of RFC 7159 wants them escaped
  (`JsonReading.RawCharIff`).
- `diff` writes array indices that `patch` reads with `std::stoi`: the documented invariant holds exactly when
  no difference lies at index 2^31 or beyond (`JsonDiff.PatchUndoesDiffIff`, `JsonDiff.LongArrayIsNotEmptied`).
- `unflatten` makes an array when the first token it meets is 0, so an object loses its kind when its key 0
  comes first in the order of the flattened texts (`JsonRestore.UnflattenUndoesFlattenIff`,
  `JsonRestore.ZeroKeyIsLost`).

## Model

| member | source | states |
|---|---|---|
| `PrngEngine.PrngEngine.Seeded` | lib/dynograph_util/prng_engine.hpp:164-174 | A seeded engine stands at the origin of the stream of its key. |
| `PrngEngine.PrngEngine.IncCounter` | lib/dynograph_util/prng_engine.hpp:343-355 | The four words count on by one modulo 2^256, whatever carries that takes. |
| `PrngEngine.PrngEngine.IncCounterBy` | lib/dynograph_util/prng_engine.hpp:357-369 | The four words count on by any 64-bit amount modulo 2^256. |
| `PrngEngine.PrngEngine.Next` | lib/dynograph_util/prng_engine.hpp:194-211 | One call returns the output at the engine's position of the stream and moves on by exactly one, also across a block boundary. |
| `PrngEngine.PrngEngine.Discard` | lib/dynograph_util/prng_engine.hpp:220-236 | Skipping z leaves the engine at the position that z single calls would have reached, for every 64-bit z. |
| `PrngEngine.LeavesBlock` | lib/dynograph_util/prng_engine.hpp:229-235 | The block arithmetic of the skip: finishing a block, passing q blocks and stopping r chunks into the next is that many single steps. |
| `PrngEngine.StepsCompose` | lib/dynograph_util/prng_engine.hpp:216-236 | Skipping x and then y reaches the same position as skipping x + y. |
| `PrngEngine.SamePosition` | lib/dynograph_util/prng_engine.hpp:262-271 | Exactly when the two engines of one key stand at the same position: equal fields, or a used-up block against the start of the next, which operator== calls different. |
| `PrngEngine.OutputAt` | lib/dynograph_util/prng_engine.hpp:194-211 | The chunk that the engine holds is the output of the stream at its position. |
| `PrngEngine.ChunksMakeWords` | lib/dynograph_util/prng_engine.hpp:194-211 | Two outputs after each other make up a word of the encrypted counter again, the low half first, and the four words of a block come in order. |
| `PrngEngine.CounterWordsStandFor` | lib/dynograph_util/prng_engine.hpp:343-355 | The four words of a counter, lowest first, are its digits in base 2^64. |
| `Rmat.RmatEdgeGenerator.constructor` | lib/dynograph_util/rmat.h:71-78 | SCALE is the base-two logarithm rounded down: 2^SCALE <= nv < 2^(SCALE + 1). |
| `Rmat.RmatEdgeGenerator.NextEdge` | lib/dynograph_util/rmat.h:92-141 | The loop terminates; the endpoints are those that the numbers drawn at the engine's positions decide, and the engine has moved on by one edge. |
| `Rmat.RmatEdgeGenerator.Discard` | lib/dynograph_util/rmat.h:81-90 | The engine moves by n edges' worth of calls, computed modulo 2^64 as the source does. |
| `Rmat.AfterEdgesIsSteps` | lib/dynograph_util/rmat.h:92-141 | Every edge takes the same number of engine calls, (5 * (SCALE - 1) + 1) * k, whatever quadrants are drawn. |
| `Rmat.DiscardReachesIff` | lib/dynograph_util/rmat.h:81-90 | discard(n) reaches the position of n calls of next_edge if and only if the number of engine calls fits in 64 bits. |
| `Rmat.LongSkipFails` | lib/dynograph_util/rmat.h:81-90 | A skip that wraps around: with one number of two engine calls per edge, skipping 2^63 edges goes nowhere. |
| `Rmat.QuadrantDecidesBits` | lib/dynograph_util/rmat.h:99-138 | Bit n of the source is set exactly when the level of that bit drew quadrant 3 or 4, and of the destination for quadrant 2 or 4. |
| `Rmat.EndpointsInRange` | lib/dynograph_util/rmat.h:92-141 | Both endpoints lie in [0, 2^SCALE). |
| `Rmat.LevelOfNumbers` | lib/dynograph_util/rmat.h:92-141 | The quadrant of a level is chosen by the numbers drawn for the edge so far, one at each level and four between two levels, each taken k engine calls after the one before. |
| `Rmat.NumberOfChunks` | lib/dynograph_util/rmat.h:26-26 | A number is made of the k outputs from its position on, in order. |
| `RmatDataset.Worker.Iteration` | lib/dynograph_util/rmat_dataset.cc:183-201 | One iteration of one thread: after skipping the indices of others it writes the edge and the timestamp of its own index and stays on course. |
| `RmatDataset.ParallelFill` | lib/dynograph_util/rmat_dataset.cc:176-201 | For every partition among threads and every interleaving of their iterations the array holds the edges of one serial loop. |
| `RmatDataset.LastPrivate` | lib/dynograph_util/rmat_dataset.cc:176-182 | The copy of the thread that has the last index stands where one serial loop would have left the generator. |
| `RmatDataset.RerollSelfEdges` | lib/dynograph_util/rmat_dataset.cc:203-212 | The serial second pass replaces self-edges one after the other with edges from the rest of the stream and keeps everything else, on every stream on which it comes to an end. |
| `RmatDataset.RerolledEdges` | lib/dynograph_util/rmat_dataset.cc:206-212 | After it no edge is a self-edge, edges that were none are kept, and weights and timestamps have not changed. |
| `RmatDataset.RerolledAt` | lib/dynograph_util/rmat_dataset.cc:203-212 | A self-edge is replaced by the first edge that is none, from the place of the stream where the re-rolls before it stopped. |
| `RmatDataset.RmatBatch` | lib/dynograph_util/rmat_dataset.cc:167-220 | The batch and the position of the caller's generator afterwards depend on where the stream began, not on the schedule, whenever the construction comes to an end. |
| `RmatDataset.BatchTimestamps` | lib/dynograph_util/rmat_dataset.cc:167-220 | The timestamps of a batch count on from the first one. |
| `RmatDataset.BatchEdgeAt` | lib/dynograph_util/rmat_dataset.cc:193-199 | An edge that was not drawn again has the source and the destination of its place in the stream, weight 1 and the time of its index. |
| `RmatDataset.BatchEdgeSomewhere` | lib/dynograph_util/rmat_dataset.cc:193-212 | Every edge of a batch has the source and the destination that next_edge yields at some place, its own or one after the first pass, and both lie below 2^SCALE. |
| `RmatDataset.JumpMatchesIff` | lib/dynograph_util/rmat_dataset.cc:101-113 | Asking for a batch out of order gives what asking in order gives if and only if it is the first batch. |
| `RmatDataset.StartsAtJumpIff` | lib/dynograph_util/rmat_dataset.cc:101-107 | Skipping batchId * batch_size edges leads to where the batch starts in order if and only if no edge before that place had to be drawn again; otherwise it falls short. |
| `RmatDataset.OneRerollShifts` | lib/dynograph_util/rmat_dataset.cc:101-107 | A stream that starts with a self-edge: in order, batch 1 of size 1 starts at place 2, and a jump leads to place 1. |
| `RmatDataset.JumpEndpoints` | lib/dynograph_util/rmat_dataset.cc:101-113 | Then the batch asked for out of order has the same endpoints and leaves the generator at the same place; its timestamps start over. |
| `RmatDataset.RmatDataset.GetBatch` | lib/dynograph_util/rmat_dataset.cc:101-113 | After any calls before: the batch that goes on from where the last one ended, or the one that a reset and a skip lead to, and the state for the next call; asked for in order, the in-order batch. |
| `RmatDataset.RmatDataset.Reset` | lib/dynograph_util/rmat_dataset.cc:160-164 | The generator and the counters are as they were at the start. |
| `Algorithms.Sort` | lib/dynograph_util/batch.cc:52-52 | std::sort: a range becomes ordered and a permutation, and the rest of the array stays. |
| `Algorithms.LowerBound` | lib/dynograph_util/batch.cc:36-38 | std::lower_bound: exactly the elements before the result are before the key. |
| `Algorithms.EqualRange` | lib/dynograph_util/batch.cc:85-89 | std::equal_range: exactly the elements equivalent to the key are in the range. |
| `Algorithms.UniqueCopy` | lib/dynograph_util/batch.cc:58-62 | std::unique_copy: the output is the input without elements that match the last one kept. |
| `Batches.Batch.MaxVertexId` | lib/dynograph_util/batch.cc:22-30 | The largest vertex that occurs at either end of an edge. |
| `Batches.Batch.Filter` | lib/dynograph_util/batch.cc:32-39 | The range shrinks to exactly the edges at or after the threshold. |
| `Batches.UniqueOfSorted` | lib/dynograph_util/batch.cc:52-62 | Over the sorted range one edge per pair of endpoints is kept, in order, and it is a most recent one. |
| `Batches.DedupKeepsMostRecent` | lib/dynograph_util/batch.cc:54-69 | What the deduplication means edge by edge: every input pair is there once, no older than any input edge of that pair. |
| `Batches.DegreesDescend` | lib/dynograph_util/batch.cc:97-105 | What the order means for any two edges: the source of the first has more edges, counted in the batch, or as many and a destination with no fewer. |
| `Batches.DegreeWorker.Iteration` | lib/dynograph_util/batch.cc:79-95 | One iteration of one thread with its own search position: it writes the true degree of its vertex and touches no other. |
| `Batches.CountDegrees` | lib/dynograph_util/batch.cc:78-95 | For every schedule and interleaving every vertex gets its true out-degree. |
| `Batches.OutDegreeCounts` | lib/dynograph_util/batch.cc:78-95 | The out-degree is the number of edges that leave the vertex. |
| `Batches.Batch.DedupAndSortByOutDegree` | lib/dynograph_util/batch.cc:41-106 | The batch becomes a deduplication of itself, ordered by the out-degree of the source and then of the destination, both descending; edges outside the range stay. |
| `ReferenceImpl.ReferenceImpl.InsertBatch` | lib/dynograph_util/reference_impl.h:59-76 | The stored pairs become those of the old graph with the batch added, for any weights; the count gets ahead by one for every edge that finds its pair stored with weight -1, and stays right if and only if there is none. |
| `ReferenceImpl.ReferenceImpl.DeleteEdgesOlderThan` | lib/dynograph_util/reference_impl.h:34-57 | Exactly the pairs at or after the threshold are kept, no vertex keeps an empty neighbour list, and the count is off by as much as before. |
| `ReferenceImpl.InsertAllSums` | lib/dynograph_util/reference_impl.h:59-76 | Inserting adds up weights and takes the greatest timestamp, for positive weights. |
| `ReferenceImpl.InsertAllPermutes` | lib/dynograph_util/reference_impl.h:59-76 | The order of a batch does not matter. |
| `ReferenceImpl.InsertAllSplits` | lib/dynograph_util/reference_impl.h:59-76 | Inserting a batch in two parts is inserting it whole. |
| `ReferenceImpl.InsertAllCombined` | lib/dynograph_util/reference_impl.h:59-76 | As long as no edge finds its pair stored with weight -1, inserting adds up weights and takes the greatest timestamp. |
| `ReferenceImpl.HitForgets` | lib/dynograph_util/reference_impl.h:64-74 | Two edges of a fresh pair: their sum and the later time, but after weight -1 the second edge alone. |
| `ReferenceImpl.HitsAreCountedTwice` | lib/dynograph_util/reference_impl.h:64-74 | The edge count exceeds the number of pairs by the number of such edges. |
| `ReferenceImpl.CountStaysRightIff` | lib/dynograph_util/reference_impl.h:59-76 | The edge count stays right over a batch if and only if no edge comes when the weights of its pair, stored and in the batch before it, add up to -1. |
| `ReferenceImpl.RunCountIsRightIff` | lib/dynograph_util/reference_impl.h:34-76 | Over any run of insertions and deletions the edge count ends up right if and only if that never happens: deletions repair nothing. |
| `ReferenceImpl.MarkedWeightIsCountedTwice` | lib/dynograph_util/reference_impl.h:64-74 | An edge of weight -1 and any other edge of its pair are one pair and counted as two, and the first is forgotten with its time. |
| `ReferenceImpl.DegreeCountsPairs` | lib/dynograph_util/reference_impl.h:80-84 | The out-degree is the number of stored pairs with that source. |
| `EdgeListDataset.EdgeListDataset.Load` | lib/dynograph_util/edgelist_dataset.cc:33-81 | A dataset is loaded if and only if the edges pass every check; otherwise the error is that of the first check they fail. |
| `EdgeListDataset.EdgeListDataset.WindowStartBounds` | lib/dynograph_util/edgelist_dataset.cc:161-174 | The threshold lies between the first timestamp and the last timestamp of the batch. |
| `EdgeListDataset.InWindowIff` | lib/dynograph_util/edgelist_dataset.cc:161-174 | A time is in the window if and only if it is not before the first one and lies back from the last of the batch by at most window_size times the whole time span. |
| `EdgeListDataset.EdgeListDataset.WindowsAscend` | lib/dynograph_util/edgelist_dataset.cc:161-174 | Thresholds never go back. |
| `EdgeListDataset.EdgeListDataset.WindowNotEmpty` | lib/dynograph_util/edgelist_dataset.cc:161-186 | Neither the filtered batch nor the filtered snapshot is empty, so its greatest vertex is defined. |
| `EdgeListDataset.EdgeListDataset.GetBatch` | lib/dynograph_util/edgelist_dataset.cc:176-180 | The slice of the edges that the batch is, shared with the dataset. |
| `EdgeListDataset.EdgeListDataset.GetBatchesUpTo` | lib/dynograph_util/edgelist_dataset.cc:182-186 | All edges up to the end of the batch. |
| `Benchmark.GetPreprocessedBatch` | lib/dynograph_util/benchmark.cc:67-100 | For each sort mode the filtered batch or its deduplication in order; the dataset's own edges are not changed. |
| `Runs.SelectedIs` | lib/dynograph_util/benchmark.cc:67-100 | Of the batch, or for a snapshot of everything up to its end, exactly the edges in the window are selected, in order and with repetitions. |
| `Runs.WindowMoves` | lib/dynograph_util/benchmark.h:77-94 | Deleting what is too old and inserting the batch moves the window on by one batch, whichever sort mode is used. |
| `Runs.WindowIs` | lib/dynograph_util/benchmark.h:77-94 | The window has a pair if and only if some edge so far with these ends is in it, and the time of the latest such edge. |
| `Benchmark.UpdateGraph` | lib/dynograph_util/benchmark.h:69-94 | What one batch of the incremental run does to the graph, pair by pair and count included, for any weights. |
| `Runs.IncrementalHolds` | lib/dynograph_util/benchmark.h:64-94 | After every batch of every incremental run the graph holds exactly the window of the edges up to it, and its count is right. |
| `Runs.FullWindowAddsUp` | lib/dynograph_util/benchmark.h:64-94 | With a full window an unsorted run has, after every batch, inserted all edges so far once each and in order, whatever their weights. |
| `Runs.FullWindowSums` | lib/dynograph_util/benchmark.h:64-94 | Then, with positive weights, every pair has the sum of the weights of its edges so far and the latest of their times. |
| `Benchmark.BuildSnapshot` | lib/dynograph_util/benchmark.h:154-168 | The graph built for an epoch is made of the deduplicated cumulative snapshot. |
| `Runs.SnapshotHolds` | lib/dynograph_util/benchmark.h:154-168 | Every such graph holds exactly the window of its batch. |
| `Runs.SameWindowSameGraph` | lib/dynograph_util/benchmark.h:64-94 | Two graphs that hold the same window have the same pairs with the same timestamps, and the same counts and degrees. |
| `Runs.IncrementalEqualsSnapshot` | lib/dynograph_util/benchmark.h:64-168 | Over whole runs: in every epoch of an incremental run and of a rebuilding run, after the same batch, the graphs have the same pairs with the same timestamps, and the same counts and degrees. |
| `Benchmark.RunDynamic` | lib/dynograph_util/benchmark.h:55-137 | The run is a sequence of such steps from the empty graph to the final one; every epoch that is due, num_epochs in all, saw the graph after its batch; the results left are those of the algorithms on these graphs in turn. |
| `Benchmark.RunStatic` | lib/dynograph_util/benchmark.h:141-214 | Every epoch that is due, num_epochs in all, saw a graph made of the snapshot of its batch, holding exactly its window; the results left are those of the algorithms on these graphs in turn. |
| `Benchmark.RunTrials` | lib/dynograph_util/benchmark.h:99-130 | The first trial starts with the results at hand and every other with those of the last epoch; each ends with what the algorithms make of its start on the graph; the last one's results are kept: those of every algorithm are its old ones, updated as often as it is named. |
| `Runs.TrialOnce` | lib/dynograph_util/benchmark.h:108-126 | When no name is there twice, a trial runs every named algorithm once, on its own old results, and leaves the others alone. |
| `Runs.OnEachAt` | lib/dynograph_util/benchmark.h:96-134 | Over a run, the results of an algorithm are its first ones updated on the graph of every epoch in turn. |
| `Benchmark.RunEpoch` | lib/dynograph_util/benchmark.h:97-132 | The epoch after a batch adds its trials to the record, whose last results are those at hand, and the assertion on the number of epochs holds. |
| `Runs.TrialsRepeat` | lib/dynograph_util/benchmark.h:99-130 | From the second epoch on every trial starts with the results that the epoch before left, and all trials of an epoch end alike. |
| `Runs.EpochsLeave` | lib/dynograph_util/benchmark.h:99-130 | However many trials there are, a run leaves what one trial for each epoch makes of its first results: those at hand, or with several trials those of the epoch before. |
| `Runs.NoneIsMissed` | lib/dynograph_util/benchmark.h:96-134 | No batch that is to be followed by an epoch is left out. |
| `EpochSchedule.EpochsRunOnTime` | lib/dynograph_util/benchmark.cc:102-117 | After k batches exactly floor(k * num_epochs / num_batches) epochs have been due. |
| `EpochSchedule.AllEpochsRunIff` | lib/dynograph_util/benchmark.h:131-134 | All epochs are run in the end if and only if there are at least as many batches; then the count never gets past them and the last batch is followed by one. |
| `EpochSchedule.EvenlySpaced` | lib/dynograph_util/benchmark.cc:102-117 | Consecutive epochs are num_batches / num_epochs batches apart, rounded down or up. |
| `EpochSchedule.DueIsDivision` | lib/dynograph_util/benchmark.cc:106-111 | The two divisions of the source over the rationals are one integer division. |
| `AlgDataManager.AlgDataManager.NextEpoch` | lib/dynograph_util/alg_data_manager.cc:25-36 | The last results become a copy of the current ones, entry by entry. |
| `AlgDataManager.AlgDataManager.Rollback` | lib/dynograph_util/alg_data_manager.cc:38-49 | The current results become a copy of the last ones, entry by entry. |
| `Algorithms.PartialSum` | stinger_graph.cpp:193-202 | std::partial_sum, in place and into another array: every element is combined with the one just written. |
| `StingerCsr.MergedAt` | stinger_graph.cpp:193-202 | An element of the merged list is the sorted one, marked as both exactly when the one before it has the same endpoints. |
| `StingerCsr.PipelineRepresents` | stinger_graph.cpp:171-212 | Split, sort, merge, sort and remove duplicates leave one slot for each pair in either direction, in order, with its label and payload. |
| `StingerCsr.InsertUsingSetInitialEdges` | stinger_graph.cpp:148-243 | The lists handed to STINGER: offsets start at 0, ascend and end at the slot count, and cut the slots by vertex; the lists spell the slots out. |
| `StingerCsr.CountSlots` | stinger_graph.cpp:222-233 | In whatever order the threads take the vertices, every vertex gets the length of its range. |
| `StingerCsr.NeighboursAreFaithful` | stinger_graph.cpp:215-243 | The neighbours of v ascend, are exactly those with an edge to or from v, and carry the in and out bits of the batch. |
| `StingerCsr.PayloadsOfNeighbours` | stinger_graph.cpp:173-243 | Weight and time of a neighbour are those of an edge out to it or in from it, as its direction says; a merged one has those of the edge in. |
| `StingerCsr.OffsetsSpan` | stinger_graph.cpp:215-243 | The offsets start at 0, ascend and end at the number of neighbours listed. |
| `StingerCsr.DirectionsAreTrueIff` | stinger_graph.cpp:171-212 | All directions are right if and only if every pair that the batch repeats is also there in reverse. |
| `StingerCsr.LoneRepeatPassesAssertion` | stinger_graph.cpp:152-156 | A batch that the assertion lets through and whose directions come out wrong. |
| `StingerCsr.SlotsMirror` | stinger_graph.cpp:173-192 | Every slot has its mirror at the other end with the directions swapped. |
| `StingerCsr.BitsAreConserved` | stinger_graph.cpp:173-212 | As many slots carry the out bit as a batch without repetitions has edges, and as many the in bit. |
| `Pvectors.Pvector.Reserve` | lib/dynograph_util/pvector.h:108-119 | The contents stay; the capacity grows to the request if it is larger, and then every element is moved once. |
| `Pvectors.Pvector.Resize` | lib/dynograph_util/pvector.h:129-132 | The elements that fit stay, and new cells hold anything. |
| `Pvectors.Pvector.PushBack` | lib/dynograph_util/pvector.h:142-149 | One element is appended; a full range doubles first. |
| `Pvectors.Pvector.Assign` | lib/dynograph_util/pvector.h:82-89 | The contents become those of the other vector, which stays, also when it is the same one. |
| `Pvectors.RunPays` | lib/dynograph_util/pvector.h:107-149 | Over any run of operations the elements moved are at most twice those pushed or asked for, given an initial allowance. |
| `Pvectors.PushesAreAmortised` | lib/dynograph_util/pvector.h:142-149 | n pushes from empty move fewer than 2n elements in all. |
| `Pvectors.PushesFromEmpty` | lib/dynograph_util/pvector.h:142-149 | Exactly: the capacity ends up as the least power of two that is enough, and one element less than that has been moved. |
| `JsonValue.LessTotal` | lib/dynograph_util/hooks/json.hpp:274-276 | The order of object members is total and strict. |
| `JsonValue.LessIff` | lib/dynograph_util/hooks/json.hpp:274-276 | It is the lexicographical order: decided at the first place where the keys differ. |
| `JsonValue.EqIsSigned` | lib/dynograph_util/hooks/json.hpp:5280-5355 | Two values are equal if and only if they are the same once all numbers are made signed. |
| `JsonValue.AsSignedIsCongruent` | lib/dynograph_util/hooks/json.hpp:5350-5357 | The signed number is the only one that is congruent to the unsigned one modulo 2^64. |
| `JsonValue.SignedKeeps` | lib/dynograph_util/hooks/json.hpp:5280-5355 | Making numbers signed leaves values without unsigned ones as they are. |
| `JsonValue.SortedKeysAscend` | lib/dynograph_util/hooks/json.hpp:344-348 | Iteration visits every key once, in ascending order. |
| `JsonPointer.ReplaceSubstring` | lib/dynograph_util/hooks/json.hpp:9161-9173 | Replacing in place, going on after each replacement, replaces every occurrence from the left. |
| `JsonPointer.EscapedInTwoPasses` | lib/dynograph_util/hooks/json.hpp:9176-9182 | The two passes escape every tilde and slash by itself. |
| `JsonPointer.UnescapedInTwoPasses` | lib/dynograph_util/hooks/json.hpp:9185-9191 | The two passes in this order resolve every escape by itself, so that ~01 becomes ~1. |
| `JsonPointer.Split` | lib/dynograph_util/hooks/json.hpp:9086-9148 | The cursor loop yields the unescaped pieces between slashes, or the first error. |
| `JsonPointer.ToString` | lib/dynograph_util/hooks/json.hpp:8779-8789 | The loop yields the escaped tokens, each after a slash. |
| `JsonPointer.TokensOfText` | lib/dynograph_util/hooks/json.hpp:8779-8789 | split(to_string(p)) is p for every list of tokens. |
| `JsonPointer.TextOfTokens` | lib/dynograph_util/hooks/json.hpp:9086-9148 | to_string(split(s)) is s for every s that split accepts. |
| `JsonPointer.TokensAcceptsIff` | lib/dynograph_util/hooks/json.hpp:9090-9140 | A text is accepted if and only if it is empty, or starts with a slash and every tilde is followed by 0 or 1. |
| `JsonPointer.PointerExamples` | lib/dynograph_util/hooks/json.hpp:9086-9148 | Pointers from section 5 of RFC 6901 and the tokens they stand for. |
| `JsonAccess.StoiOfDigits` | lib/dynograph_util/hooks/json.hpp:8975-8975 | std::stoi reads back every numeral below 2^31 and refuses the others. |
| `JsonAccess.StoiIsLoose` | lib/dynograph_util/hooks/json.hpp:8975-8975 | A numeral is read with white space and a sign before it and anything but a digit after it. |
| `JsonAccess.At` | lib/dynograph_util/hooks/json.hpp:8945-8995 | The loop that follows a pointer finds what the path leads to, or the first error. |
| `JsonAccess.PutLaws` | lib/dynograph_util/hooks/json.hpp:9714-9714 | What was put at a path is there, putting twice is putting once, and putting back what is there changes nothing. |
| `JsonAccess.PutConcat` | lib/dynograph_util/hooks/json.hpp:9714-9714 | Changing something deeper changes nothing but the value at the prefix. |
| `JsonAccess.UncheckedConcat` | lib/dynograph_util/hooks/json.hpp:8901-8943 | Where a path leads somewhere, unchecked access goes there too and makes nothing on the way. |
| `JsonAccess.OutOfReach` | lib/dynograph_util/hooks/json.hpp:8930-8930 | Nothing under an array index of 2^31 or more can be reached. |
| `JsonPatch.Patch` | lib/dynograph_util/hooks/json.hpp:9519-9778 | The loop applies the operations in order and stops at the first error. |
| `JsonOperations.InsertShifts` | lib/dynograph_util/hooks/json.hpp:9590-9608 | Adding at an index of an array moves up what is there from that index on, and fails beyond the end. |
| `JsonOperations.EraseShifts` | lib/dynograph_util/hooks/json.hpp:9622-9648 | Removing at an index takes that element out alone, and needs one that is there. |
| `JsonOperations.RemoveUndoesAdd` | lib/dynograph_util/hooks/json.hpp:9558-9648 | In any document, adding an element to an array and removing it changes nothing. |
| `JsonOperations.TestIff` | lib/dynograph_util/hooks/json.hpp:9745-9766 | A test succeeds if and only if the path leads to a value that is the same up to the signedness of numbers, and changes nothing. |
| `JsonOperations.MoveIsRemoveThenAdd` | lib/dynograph_util/hooks/json.hpp:9718-9733 | A move is a removal followed by the addition of what was removed, as the source and section 4.4 of RFC 6902 say; without an origin it fails. |
| `JsonOperations.CopyToMember` | lib/dynograph_util/hooks/json.hpp:9735-9743 | A copy to a member of an object is the addition of the value at the origin. |
| `JsonOperations.CopyIsAddIff` | lib/dynograph_util/hooks/json.hpp:9735-9743 | A copy to an index of an array is that addition if and only if the index is the end of the array or cannot be read. |
| `JsonOperations.CopyReplaces` | lib/dynograph_util/hooks/json.hpp:9735-9743 | A copy onto an element of an array replaces it. |
| `JsonPatch.Diff` | lib/dynograph_util/hooks/json.hpp:9812-9942 | The recursive loops yield the operations of the specification, with removals in reverse order. |
| `JsonDiff.DifferenceIsBelow` | lib/dynograph_util/hooks/json.hpp:9812-9942 | Every operation of a difference stays under the path it was made for. |
| `JsonDiff.DifferenceTurns` | lib/dynograph_util/hooks/json.hpp:9812-9942 | The difference of a part, applied to the whole, changes that part alone, into the target; or it fails, exactly when an index is out of reach. |
| `JsonDiff.PatchUndoesDiffIff` | lib/dynograph_util/hooks/json.hpp:9787-9791 | patch(diff(source, target)) succeeds if and only if no two arrays differ at or beyond index 2^31, and then with the target up to the signedness of numbers; otherwise it fails. |
| `JsonDiff.PatchGivesTarget` | lib/dynograph_util/hooks/json.hpp:9787-9791 | Without unsigned numbers the result is the target itself. |
| `JsonDiff.LongArrayIsNotEmptied` | lib/dynograph_util/hooks/json.hpp:9787-9791 | An array of 2^31 + 1 elements and the empty array: the difference cannot be applied. |
| `JsonFlatten.Flatten` | lib/dynograph_util/hooks/json.hpp:9200-9251 | The recursive loops enter the leaves of the value into the result. |
| `JsonFlatten.FlatIsLeaves` | lib/dynograph_util/hooks/json.hpp:9200-9251 | The flattened value has an entry for every leaf, with its value, and no other. |
| `JsonFlatten.Unflatten` | lib/dynograph_util/hooks/json.hpp:9258-9284 | The loop enters the leaves in the order of their texts and stops at the first error. |
| `JsonRestore.Enter` | lib/dynograph_util/hooks/json.hpp:8832-8886 | Entering a leaf into a value with some leaves there adds exactly that leaf if it may come next, and otherwise fails or makes a container of the wrong kind. |
| `JsonRestore.WrongStays` | lib/dynograph_util/hooks/json.hpp:8832-8886 | A container of the wrong kind stays one whatever is entered later. |
| `JsonRestore.UnflattenUndoesFlattenIff` | lib/dynograph_util/hooks/json.hpp:9435-9463 | unflatten(flatten(v)) is v if and only if v has no empty container, no array of more than 2^31 elements and no object in which the key 0 comes first. |
| `JsonRestore.ZeroKeyIsLost` | lib/dynograph_util/hooks/json.hpp:8846-8850 | An object with the key 0 alone never comes back. |
| `JsonDump.EscapeString` | lib/dynograph_util/hooks/json.hpp:5882-5988 | The buffer that starts full of backslashes ends as the escaped string, character by character. |
| `JsonDump.ExtraSpace` | lib/dynograph_util/hooks/json.hpp:5833-5867 | How much longer the escaped string is. |
| `JsonDump.Dump` | lib/dynograph_util/hooks/json.hpp:2097-2113 | The text of a value in compact form or at an indentation. |
| `JsonLayout.CompactArray` | lib/dynograph_util/hooks/json.hpp:6007-6156 | The compact text of an array is those of its elements with commas between them, in brackets, and nothing else. |
| `JsonLayout.CompactObject` | lib/dynograph_util/hooks/json.hpp:6007-6156 | The compact text of an object is its keys in quotes, colons and the texts of its values, with commas between them, in the order of the keys. |
| `JsonLayout.CompactPrimitives` | lib/dynograph_util/hooks/json.hpp:6007-6156 | The texts of null, the two truth values, numbers and strings. |
| `JsonLayout.PrettyIsIndented` | lib/dynograph_util/hooks/json.hpp:6007-6156 | At every indentation the text is the compact one laid out by a rule on characters: a new line after every opening bracket and comma and before every closing bracket, indented by its depth, a blank after every colon, and string literals and empty brackets kept. |
| `JsonLayout.EscapedExamples` | lib/dynograph_util/hooks/json.hpp:5882-5988 | The short escapes, lower-case hexadecimal digits for the other control characters, and what is not escaped. |
| `JsonReading.EscapedIsShortest` | lib/dynograph_util/hooks/json.hpp:5882-5988 | No text without bare control characters that stands for the same string is shorter than the escaped one. |
| `JsonLexer.Lexer.Scan` | lib/dynograph_util/hooks/json.hpp:7339-8100 | The token at the cursor by the grammar, with white space and byte order marks skipped. |
| `JsonLexer.Lexer.GetString` | lib/dynograph_util/hooks/json.hpp:8159-8260 | The value of a string token: escapes, surrogate pairs and plain bytes, or the first error. |
| `JsonLexer.Lexer.GetNumber` | lib/dynograph_util/hooks/json.hpp:8348-8431 | The value of a number token with the source's overflow checks modulo 2^64. |
| `JsonParser.Parser.ParseInternal` | lib/dynograph_util/hooks/json.hpp:8488-8677 | The parser follows the grammar of values from the current token to the one after the value. |
| `JsonParser.Parser.ParseArray` | lib/dynograph_util/hooks/json.hpp:8566-8614 | The loop over elements, commas included. |
| `JsonParser.Parser.ParseObject` | lib/dynograph_util/hooks/json.hpp:8494-8564 | The loop over members, commas, keys and colons included. |
| `JsonLexemes.NumberOfText` | lib/dynograph_util/hooks/json.hpp:8348-8431 | Every number of 64 bits is read back, the negative ones as signed and the others as unsigned. |
| `JsonLexemes.UnquotedEscaped` | lib/dynograph_util/hooks/json.hpp:8159-8260 | Every string is read back, control characters included. |
| `JsonLexemes.Utf8IsShortest` | lib/dynograph_util/hooks/json.hpp:7224-7285 | The bytes of a code point stand for it and are the shortest that do, up to 0x10FFFF. |
| `JsonLexemes.Utf8Examples` | lib/dynograph_util/hooks/json.hpp:7224-7285 | Code points and bytes from section 7 of RFC 3629. |
| `JsonLexemes.EscapeReads` | lib/dynograph_util/hooks/json.hpp:8205-8248 | An escape of four hexadecimal digits stands for the bytes of its code point. |
| `JsonLexemes.PairReads` | lib/dynograph_util/hooks/json.hpp:8205-8248 | Two escapes of a surrogate pair stand for the bytes of one code point. |
| `JsonReading.HexDigits` | lib/dynograph_util/hooks/json.hpp:8205-8248 | Hexadecimal digits of either case have their values. |
| `JsonReading.AnyHexReads` | lib/dynograph_util/hooks/json.hpp:8205-8248 | An escape of any four of them stands for the bytes of the code point they spell. |
| `JsonReading.ShortEscapes` | lib/dynograph_util/hooks/json.hpp:8172-8203 | The eight escapes of two characters, the one of the slash included. |
| `JsonReading.RawCharIff` | lib/dynograph_util/hooks/json.hpp:7529-7538 | A bare character other than quote and backslash is taken in a string if and only if it is not one of the first 16. |
| `JsonRoundTrip.DumpedReads` | lib/dynograph_util/hooks/json.hpp:6007-6156 | What was written for a value reads as that value, whatever stands after it. |
| `JsonRoundTrip.ParseUndoesDump` | lib/dynograph_util/hooks/json.hpp:2097-2113 | parse(dump(v)) is equal to v, in compact form and at every indentation. |
| `JsonReading.BlankSkipped` | lib/dynograph_util/hooks/json.hpp:7339-7531 | Blanks of all four kinds and byte order marks before a value do not matter. |
| `JsonReading.TextGoesOn` | lib/dynograph_util/hooks/json.hpp:8475-8484 | After the text of a value there may be nothing but the end of the input. |
| `JsonReading.OnlyBlanksFollow` | lib/dynograph_util/hooks/json.hpp:8475-8484 | Blanks after a value are taken, and any other character but a zero byte or the start of a byte order mark is refused. |
| `JsonReading.LeadingZeroRejected` | lib/dynograph_util/hooks/json.hpp:7339-8100 | A zero followed by another digit is refused. |

## Left out

- The cipher of the engine, the conversion of its output to reals and the comparisons that choose a quadrant are
  function parameters; so is the number of engine calls per real number, as in the source.
- RmatDataset.RerollSelfEdges: what is proved is partial correctness. The precondition says exactly that the
  loop comes to an end on the given edges and stream, and so does the one of RmatBatch; that this happens with
  probability one is not modelled.
- RMAT batches go through generation only: the window of an RMAT dataset and its cumulative batches, whose
  filtered batches can be empty, are not modelled.
- Floating point: window width and epoch schedule are exact rationals, and JSON numbers with a fraction, an
  exponent or more than 64 bits are refused by the modelled parser instead of becoming doubles.
- Integers of edges, weights and timestamps are unbounded, so sums of weights do not overflow; engine words,
  skip distances, JSON integers and indentations have their widths.
- JsonLexer.Lexer.GetNumber: the negation of -2^63 overflows in the source; the model takes the two's complement
  result.
- Vectors of algorithm results are modelled as values, copied whole; what an algorithm computes is a parameter.
- File loading, logging, arguments, environment, message passing, timers and hooks.
- STINGER's own structures and the call that receives the lists; the direction constants are an enumeration
  with the order that the source asserts.
- References into a JSON document are paths, and a change makes a new document; an exception drops the document
  that a patch was working on, as the source does.
- JsonPatch.Patch: where C++ leaves the order of evaluation open, the model reads the member before it finds the
  location in replace and test, which only decides which of two exceptions is thrown. In copy it finds the origin
  before it makes the destination; the other way round, a copy from a missing member onto itself would succeed.
- Out of memory: with a negative array index, operator[] appends nulls until memory runs out; the model has an
  error result for it at once, when patching and when unflattening.
- A failed assertion for an addition under a primitive value is modelled as an error result.
- Refilling the lexer from a stream, parser callbacks and the generated state table, whose token grammar is
  modelled.
- Presorting and snapshot runs choose between the modelled methods; the command line that selects them is not
  modelled.
- pvector's moves, swap, fill and element access beyond the size.
