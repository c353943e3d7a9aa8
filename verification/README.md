# InferSched, verified

A Dafny model of the parts of InferSched that are hard to get right, with proofs over every input,
every run and every interleaving.

* **The continuous-batching engine.** `ContinuousEngine` admits requests, grows their paged KV memory
  token by token, evicts radix prefix nodes under pressure, preempts victims and restarts them from
  nothing. The model is a class over classes for the reference-counted allocator, the radix prefix
  cache, the result cache, the pending queue and the cost model. The main result is
  `RunUntilIdle`: it terminates for every accepted configuration and every queue, with one result per
  submission, although preemption throws progress away.
* **The durable pipeline.** The PostgreSQL tables are maps and sequences, each transaction one step.
  Routers, engines and relays run transactions in any order with any arguments, relays crash between
  publishing and marking, partitions are revoked and reassigned. The main results are about fencing,
  about the order in which the broker sees outbox rows, and about which Kafka offsets may be committed.
* **The MPSC ring.** Every shared-memory access of `TryPush` and `TryPop` is a step of its own, for any
  number of producers and one consumer. The ring refines a bounded queue.
* **The engine service.** Dispatches, the worker, cancellation and draining interleave; the worker's
  batch runs on the verified engine, so no job ever misses its result.

## How it is organised

| file | contents |
|---|---|
| Arithmetic.dfy, Text.dfy, Requests.dfy | integer facts, decimal rendering, string keys and their injectivity, requests and results |
| PagedKv.dfy | the reference-counted block allocator |
| RadixTree.dfy, RadixCache.dfy | the prefix tree, the flat map it represents, and the cache class |
| PrefixCache.dfy | the materialised prefix cache and its agreement with the tree |
| ResultCache.dfy, RequestQueue.dfy, CostModel.dfy, ExecutionState.dfy | the engine's smaller parts |
| EngineSpec.dfy, Preemption.dfy, Iteration.dfy, ContinuousEngine.dfy | what the engine keeps and does, on values: admission, preemption, whole iterations; the engine class |
| EngineService.dfy | the dispatch service and its worker |
| RingSlots.dfy, MpscRing.dfy | index arithmetic of the ring; its interleavings |
| DurableStore.dfy, DurableHistory.dfy | tables and transactions; what every history keeps |
| OutboxRelay.dfy, OffsetTracker.dfy, KafkaPoller.dfy, Routers.dfy | relays and broker log; offset tracking; routers |

State that the source updates in place is a class whose methods are specified by functions on values;
interleavings are step relations on those values, with an invariant that every step keeps and theorems
over whole runs. History fields (`claims`, `submitted`, `served`, `window`, `accepted`, `at`, `marks`,
`base`) record what the code does not store.

`dafny verify dfyconfig.toml` checks everything.

## What turned out to be false

* An ownership epoch that has moved on does not by itself invalidate a running attempt, although
  README.md:48 of the repository reads that way. `StaleEpochCanFinalize` is a history in which it
  happens; `LastFenceFinalizesIffDispatched` is the exact condition. docs/p6-multi-router-rebalancing.md:27-30
  describes what the code does.
* A request id that is repeated at another source offset never gets an outbox row for that offset.
  `RepeatedRequestIsNotAnswered` is a history, `RepeatIsNeverAnswered` the theorem over all of them, and
  `AnsweredIffOutcome` says exactly which positions are ever answered. While such a message is in the
  topic and was not skipped, the committed position does not pass it (`RepeatStopsCommits`).
* `TryPop` may return nothing although a push that returned true is in the ring:
  `PopMissesCompletedPush` is the run. It sees nothing exactly when the oldest position is unclaimed or
  still being written (`HeadRead`).
* A retry that is refused because its request is in flight does advance a fence, contrary to the comment
  at cpp/src/engine_service.cpp:121-123: it moves the partition's epoch. `RefusedDispatchFencesOut` is a run
  in which a refused dispatch makes the epoch of the last accepted one stale; `RefusedMovesEpochIff` says
  exactly when a refused dispatch does this.

## Model

| member | source | states |
|---|---|---|
| `ContinuousEngines.ContinuousEngine.RunUntilIdle` | cpp/src/continuous_engine.cpp:74-86 | terminates on every queue by the lexicographic measure (unanswered, joinable, tokens left, stalled); the `break` is unreachable; ends with queue, batch and sequences empty; the answered requests are exactly the submitted ones, and a result is a success with the request's own output exactly if prompt and output fit the machine, else it names the limit |
| `ContinuousEngines.ContinuousEngine.RunOneIteration` | cpp/src/continuous_engine.cpp:47-72 | keeps the whole engine invariant; progress strictly descends the measure and no progress means an empty batch and nothing arrived; who joined and why the others did not, who was preempted, and that every survivor gained exactly one token |
| `ContinuousEngines.ContinuousEngine.AdmitPhase` | cpp/src/continuous_engine.cpp:48-55 | the admission half: what joined and what was left behind, then the members that want no token leave; requests not answered never grow and every admission is paid for by a request that may join |
| `ContinuousEngines.ContinuousEngine.DecodePhase` | cpp/src/continuous_engine.cpp:56-71 | the decode half: the victims go back into the queue, every survivor gains a token at one decode cost, the finished leave with their results; either a request is answered or the tokens left strictly fall |
| `ContinuousEngines.ContinuousEngine.Drain` | cpp/src/continuous_engine.cpp:48-50 | preemptions are forgotten exactly when the batch is empty |
| `ContinuousEngines.ContinuousEngine.AdmitReady` | cpp/src/continuous_engine.cpp:90-220 | requests only move from queue to batch or results, within the sequence, prefill and token limits; every request still queued has not arrived, or a limit ended the scan with only earlier requests admitted, or at its turn it was barred, too wide, running already, or short of blocks even with no prefix cached |
| `ContinuousEngines.ContinuousEngine.Scan` | cpp/src/continuous_engine.cpp:90-215 | the scan loop goes on until a limit is reached or nothing more has arrived, and keeps conservation, limits, order and the reason for everything it puts aside |
| `ContinuousEngines.ContinuousEngine.DeferralIsExcused` | cpp/src/continuous_engine.cpp:113-173 | a candidate that is put aside is barred, too wide, running, short of blocks, or cut off by the prefill limit, as seen from the batch at its turn |
| `EngineSpec.FreeIsUnheld` | cpp/src/continuous_engine.cpp:159-173 | with no prefix cached the free blocks are exactly those no batch member holds |
| `ContinuousEngines.ContinuousEngine.ScanNext` | cpp/src/continuous_engine.cpp:97-107 | considers the earliest ready request, ties by id, and accounts for where it went |
| `ContinuousEngines.ContinuousEngine.Consider` | cpp/src/continuous_engine.cpp:105-140 | exactly which test decides about a candidate, the first being whether prompt and output fit the machine; the exact result record of a rejection or a cache hit; a first candidate on an empty batch is always consumed |
| `EngineSpec.ImpossibleReasonIs` | cpp/src/continuous_engine.cpp:308-322 | a request is possible exactly if its tokens do not overflow, its prompt fits a batch and prompt plus output fit memory; each reason has its arithmetic condition, both ways |
| `ContinuousEngines.ContinuousEngine.Requeue` | cpp/src/continuous_engine.cpp:216-218 | deferred candidates are back in the queue, all of them |
| `ContinuousEngines.ContinuousEngine.LookUp` | cpp/src/continuous_engine.cpp:129-140 | a cache hit is the candidate's own simulated output, whatever filled the cache |
| `ContinuousEngines.ContinuousEngine.Matched` | cpp/src/continuous_engine.cpp:147-151 | the match is the longest cached prefix with its blocks |
| `ContinuousEngines.ContinuousEngine.AllocateShared` | cpp/src/continuous_engine.cpp:156-160 | a match of the current tree is never refused as an invalid shared block; a refusal changes nothing |
| `ContinuousEngines.ContinuousEngine.AllocateEvicting` | cpp/src/continuous_engine.cpp:153-173 | evicting between match and allocation never yields an invalid shared block; failure means an empty tree and too few free blocks; nothing is evicted while enough blocks are free |
| `ContinuousEngines.ContinuousEngine.Evict` | cpp/src/continuous_engine.cpp:161-164 | evicts exactly when the tree is not empty, touching no sequence, and keeps node blocks distinct |
| `ContinuousEngines.ContinuousEngine.TryAdmit` | cpp/src/continuous_engine.cpp:142-212 | the candidate joins with blocks that extend the longest cached prefix of its hashes, at the prefill cost of the rest, or its id is running already, or nothing is left to evict and too few blocks are free; nothing is evicted while enough blocks are free; on an empty batch it always joins |
| `ContinuousEngines.ContinuousEngine.Join` | cpp/src/continuous_engine.cpp:183-208 | the new batch member in full, the prompt's prefixes in the tree, and the clock moved by a prefill cost for the uncached tokens within the jitter band |
| `ContinuousEngines.ContinuousEngine.PrefillCost` | cpp/src/continuous_engine.cpp:187-194 | the charge is for the tokens that no matched block covers |
| `ContinuousEngines.ContinuousEngine.RememberPrefix` | cpp/src/continuous_engine.cpp:199-207 | all of the prompt's prefixes go into the tree, which is then trimmed to the configured capacity; different nodes stay on different blocks and no sequence is touched |
| `ContinuousEngines.ContinuousEngine.EmptyBatchHasRoom` | cpp/src/continuous_engine.cpp:308-322 | with batch and tree empty every possible prompt fits |
| `ContinuousEngines.ContinuousEngine.CompleteFinished` | cpp/src/continuous_engine.cpp:255-276 | exactly the members that have all their tokens leave the batch, the others keep their order; the new results are theirs in batch order, and their outputs top the result cache in that order |
| `ContinuousEngines.ContinuousEngine.FinishAt` | cpp/src/continuous_engine.cpp:262-275 | the exact result record, the member's blocks given back, the rest of the batch unchanged |
| `ContinuousEngines.ContinuousEngine.StoreOutput` | cpp/src/continuous_engine.cpp:263-264 | storing an output keeps every cache entry right for every request with its key |
| `ContinuousEngines.ContinuousEngine.SelectVictim` | cpp/src/continuous_engine.cpp:290-306 | the unique least member in the order priority, tokens left (more first), position |
| `ContinuousEngines.ContinuousEngine.Preempt` | cpp/src/continuous_engine.cpp:278-288 | the victim is back in the queue as arriving now, and barred; its blocks are free, and no request becomes joinable |
| `ContinuousEngines.ContinuousEngine.AppendEvicting` | cpp/src/continuous_engine.cpp:236-240 | appends blocks nobody holds, or fails with an empty tree and too few free blocks; nothing is evicted while enough blocks are free |
| `ContinuousEngines.ContinuousEngine.GrowAt` | cpp/src/continuous_engine.cpp:225-244 | growing fails only while another sequence is active, nothing is left to evict and the free blocks do not suffice |
| `ContinuousEngines.ContinuousEngine.LastSequenceHasRoom` | cpp/src/continuous_engine.cpp:222-253 | with the tree empty the last sequence can always be grown |
| `ContinuousEngines.ContinuousEngine.PrepareDecodeBlocks` | cpp/src/continuous_engine.cpp:222-253 | the batch loses least preferred members, one by one, exactly while the blocks it holds and its next tokens need exceed memory; they are queued as arriving now; every survivor has exactly the blocks for its next token, and the last sequence is never preempted |
| `Preemption.VictimsComeFirst` | cpp/src/continuous_engine.cpp:249-306 | everyone preempted precedes every survivor in priority, tokens left and position; the survivors keep their order |
| `Preemption.VictimsAreLeast` | cpp/src/continuous_engine.cpp:290-306 | no victim has a higher priority than a survivor, nor with equal priority fewer tokens left |
| `Preemption.VictimsAreNeeded` | cpp/src/continuous_engine.cpp:245-252 | nobody is preempted exactly when the whole batch fits |
| `Preemption.DemandStays` | cpp/src/continuous_engine.cpp:225-244 | giving members their next blocks does not change what the batch demands, so the order of growing does not matter |
| `Preemption.ShortOfBlocks` | cpp/src/continuous_engine.cpp:236-249 | a member that cannot grow with no prefix cached proves that the batch demands more than memory |
| `ContinuousEngines.ContinuousEngine.DecodeStep` | cpp/src/continuous_engine.cpp:60-69 | every batch member gains exactly one token and the clock moves by one decode cost for the batch size |
| `Iterations.FirstTokenIsFirstStep` | cpp/src/continuous_engine.cpp:63-68 | a result's first token time is the clock after its member's first decode step |
| `ContinuousEngines.ContinuousEngine.Submit` | cpp/src/continuous_engine.cpp:41-45 | the request is queued and booked as submitted; nothing else moves |
| `ContinuousEngines.ContinuousEngine.ClearCaches` | cpp/src/continuous_engine.cpp:88-88 | the tree is empty and no sequence is touched; on an idle engine no block stays allocated |
| `ContinuousEngines.ContinuousEngine.constructor` | cpp/src/continuous_engine.cpp:29-39 | a new engine is empty, its caches and allocator have the configured sizes, and it satisfies the invariant |
| `ContinuousEngines.Create` | cpp/src/continuous_engine.cpp:29-39 | an engine is built exactly for the accepted configurations; otherwise the reason of the first constructor that throws |
| `ContinuousEngines.RejectionIs` | cpp/src/continuous_engine.cpp:29-39 | a configuration is accepted exactly if nothing is wrong with it, and each reason has its condition |
| `ContinuousEngines.ContinuousEngine.BoundaryBlocks` | cpp/src/continuous_engine.cpp:142-288 | at every iteration boundary the allocator's sequences are exactly the active ids, each with ceil((prompt + generated) / block size) blocks |
| `ContinuousEngines.ContinuousEngine.BoundaryBooks` | cpp/src/continuous_engine.cpp:90-288 | at every iteration boundary submitted = queued + active + answered as multisets, and since the batch was last empty no submission was admitted twice |
| `EngineSpec.BlocksForTokensIsCeiling` | cpp/src/continuous_engine.cpp:15-18 | BlocksForTokens is the ceiling of the quotient |
| `EngineSpec.SequencesAreActiveIds` | cpp/src/continuous_engine.cpp:142-288 | counting sequences and distinct active ids gives equality of the two sets |
| `EngineSpec.NextTokenFits` | cpp/src/continuous_engine.cpp:308-322 | a request that passed the impossibility test fits the machine at every token, without size overflow |
| `EngineSpec.MatchIsUsable` | cpp/src/paged_kv_cache.cpp:35-42 | the blocks of a match are live and pairwise different |
| `EngineSpec.AllocationGrafts` | cpp/src/continuous_engine.cpp:156-173 | an allocation extends the match by blocks that no tree node holds |
| `EngineSpec.InsertedInjective` | cpp/src/radix_prefix_cache.cpp:44-82 | inserting such a sequence keeps different nodes on different blocks |
| `EngineSpec.EvictedInjective` | cpp/src/radix_prefix_cache.cpp:76-80 | trimming to capacity keeps different nodes on different blocks |
| `EngineSpec.AdmittedAtMostOnce` | cpp/src/continuous_engine.cpp:113-116 | admissions since the batch was last empty are at most the submissions, one by one |
| `EngineSpec.BooksPreempt` | cpp/src/continuous_engine.cpp:278-288 | preemption moves a request back into the queue without losing or duplicating it |
| `EngineSpec.BooksAdmit` | cpp/src/continuous_engine.cpp:209-210 | admission moves a request that is not barred from the queue into the batch |
| `EngineSpec.BooksFinish` | cpp/src/continuous_engine.cpp:262-275 | completion moves a request from the batch to the answered ones |
| `EngineSpec.BooksServe` | cpp/src/continuous_engine.cpp:105-140 | a rejection or a cache hit moves a request from the queue to the answered ones |
| `EngineSpec.RemainingStep` | cpp/src/continuous_engine.cpp:63-68 | a decode step takes exactly one token off every active sequence |
| `PagedKv.PagedKvCache.constructor` | cpp/src/paged_kv_cache.cpp:10-23 | all blocks free in descending order, so that block 0 is taken first; no holders, consistent |
| `PagedKv.PagedKvCache.Allocate` | cpp/src/paged_kv_cache.cpp:25-63 | the verdict in the order of the source's tests, the complete new state on success, no change on refusal, consistency kept |
| `PagedKv.PagedKvCache.Free` | cpp/src/paged_kv_cache.cpp:65-78 | removes the sequence and releases exactly the blocks nobody else holds, in order |
| `PagedKv.PagedKvCache.AppendBlocks` | cpp/src/paged_kv_cache.cpp:80-97 | appends fresh blocks in pop order, or changes nothing |
| `PagedKv.PagedKvCache.PinPrefix` | cpp/src/paged_kv_cache.cpp:99-118 | pins exactly when key is new and blocks are live, distinct and not empty |
| `PagedKv.PagedKvCache.UnpinPrefix` | cpp/src/paged_kv_cache.cpp:120-133 | removes the pin and releases exactly the blocks nobody else holds |
| `PagedKv.PagedKvCache.CheckInvariants` | cpp/src/paged_kv_cache.cpp:159-203 | returns true exactly on the consistent states: counts are holder counts, the free list is the zero-count blocks without repetition |
| `PagedKv.RunsStayConsistent` | cpp/src/paged_kv_cache.cpp:25-133 | any sequence of calls, refused or not, keeps counts equal to holders and the free list exact |
| `PagedKv.AllocatedConsistent` | cpp/src/paged_kv_cache.cpp:44-63 | a successful allocation keeps consistency, and taken blocks are none of the shared ones |
| `PagedKv.AppendedConsistent` | cpp/src/paged_kv_cache.cpp:89-96 | a successful append keeps consistency |
| `PagedKv.FreedConsistent` | cpp/src/paged_kv_cache.cpp:70-77 | freeing a sequence keeps consistency |
| `PagedKv.PinnedConsistent` | cpp/src/paged_kv_cache.cpp:112-117 | pinning keeps consistency |
| `PagedKv.UnpinnedConsistent` | cpp/src/paged_kv_cache.cpp:125-132 | unpinning keeps consistency |
| `PagedKv.SoleHolder` | cpp/src/paged_kv_cache.cpp:135-139 | a single sequence and the free list together are all of memory |
| `PagedKv.NoHolder` | cpp/src/paged_kv_cache.cpp:135-139 | without holders every block is free |
| `RadixTree.PlaceShows` | cpp/src/radix_prefix_cache.cpp:53-75 | writing a node changes the represented map at that path only |
| `RadixTree.PruneShows` | cpp/src/radix_prefix_cache.cpp:93-100 | erasing a leaf removes exactly that path from the represented map |
| `RadixTree.ShowsPrefixClosed` | cpp/src/radix_prefix_cache.cpp:27-38 | a tree always represents a prefix-closed map |
| `RadixTree.LeafMeansNoChildren` | cpp/src/radix_prefix_cache.cpp:115-119 | a node without children is a path with no cached extension, and conversely |
| `RadixTree.OldestLeafUnique` | cpp/src/radix_prefix_cache.cpp:112-126 | with distinct stamps the least recent leaf is unique, so iteration order does not matter |
| `RadixCache.RadixPrefixCache.GetLongest` | cpp/src/radix_prefix_cache.cpp:20-42 | the longest cached prefix, its blocks from the root down, and exactly those nodes restamped in order |
| `RadixCache.RadixPrefixCache.PutBlockPrefixes` | cpp/src/radix_prefix_cache.cpp:44-82 | known prefixes are restamped, new ones pinned until a block is not live, then least recent leaves go until the size is at most capacity |
| `RadixCache.RadixPrefixCache.EvictOldest` | cpp/src/radix_prefix_cache.cpp:84-101 | removes exactly the least recent leaf and its pin; fails exactly on an empty tree |
| `RadixCache.RadixPrefixCache.FindOldestLeaf` | cpp/src/radix_prefix_cache.cpp:112-126 | the traversal's candidate is a leaf no younger than any leaf seen |
| `RadixCache.RadixPrefixCache.Clear` | cpp/src/radix_prefix_cache.cpp:103-110 | no node and no pin is left, no sequence is touched |
| `RadixCache.RadixPrefixCache.UnpinTree` | cpp/src/radix_prefix_cache.cpp:128-135 | the pins of a whole subtree are gone, no other pin is |
| `RadixCache.PinsAreNodes` | cpp/src/radix_prefix_cache.cpp:60-75 | every pin belongs to a node: pins and nodes match one to one |
| `RadixCache.NextKeyIsFresh` | cpp/src/radix_prefix_cache.cpp:60-61 | a pin key is never handed out twice |
| `PrefixCaching.BlockPrefixKeyInjective` | cpp/src/prefix_cache.cpp:106-120 | the key determines namespace and hash list, for arbitrary strings |
| `PrefixCaching.PrefixCache.Put` | cpp/src/prefix_cache.cpp:17-39 | a known key keeps its blocks and moves to the front; a new one is pinned iff its blocks are live, distinct and not empty, and at capacity the least recent entry goes with its pin; the complete new state of cache and allocator |
| `PrefixCaching.PrefixCache.GetLongest` | cpp/src/prefix_cache.cpp:53-70 | the longest prefix that has an entry, with that entry's blocks; a hit moves its key to the front |
| `PrefixCaching.PrefixCache.PutBlockPrefixes` | cpp/src/prefix_cache.cpp:72-85 | the state after putting every prefix, shortest first, evictions and dead blocks included, and the number of puts that succeeded |
| `PrefixCaching.RoomyPuts` | cpp/src/prefix_cache.cpp:72-85 | with live blocks and room, exactly the missing prefixes are added and every one of them |
| `PrefixCaching.PrefixCache.EvictOldest` | cpp/src/prefix_cache.cpp:87-96 | drops exactly the least recent entry and its pin |
| `PrefixCaching.PrefixCache.Clear` | cpp/src/prefix_cache.cpp:98-104 | no entry and no pin is left |
| `PrefixCaching.SameInsertion` | cpp/src/radix_prefix_cache.cpp:44-82 | one insertion, reusing the blocks of its own match, keeps tree and entries equivalent |
| `PrefixCaching.SameAnswers` | cpp/src/prefix_cache.cpp:53-70 | equivalent caches have the same match length and the same blocks |
| `PrefixCaching.CachesAgree` | cpp/src/radix_prefix_cache.cpp:20-82 | after any run of insertions and queries without eviction the two caches answer every query alike |
| `PrefixCaching.RoomyTree` | cpp/src/radix_prefix_cache.cpp:44-82 | with live blocks and room the tree takes the whole insertion and evicts nothing |
| `PrefixCaching.QueryBoth` | cpp/src/radix_prefix_cache.cpp:20-42 | on equivalent caches the two classes return the same match and stay equivalent |
| `PrefixCaching.InsertBoth` | cpp/src/radix_prefix_cache.cpp:44-82 | an insertion into both classes, with live blocks that repeat its match and room, keeps them equivalent |
| `ResultCaching.ResultCache.Put` | cpp/src/result_cache.cpp:14-28 | the cache stays the top of the recency stack of everything ever put, with last values |
| `ResultCaching.ResultCache.Get` | cpp/src/result_cache.cpp:30-39 | a hit returns the last value put and touches the key; a miss changes only the counter |
| `ResultCaching.ResultCache.HoldsMostRecent` | cpp/src/result_cache.cpp:14-39 | exactly the min(capacity, n) most recently touched keys, each with its last value |
| `ResultCaching.TopFront` | cpp/src/result_cache.cpp:14-39 | the stack property: the top of the reordered stack is the reordered top |
| `Requests.ResultCacheKeyInjective` | cpp/src/result_cache_key.cpp:8-27 | the key determines every part, for arbitrary strings |
| `Requests.ResultKeyIff` | cpp/src/continuous_engine.cpp:324-333 | two requests share a result key exactly when model, tokenizer, prompt, output length, temperature, top_p and seed agree |
| `Requests.OutputIsFaithful` | cpp/src/continuous_engine.cpp:324-348 | requests with equal result keys have equal outputs |
| `Requests.NamespaceInjective` | cpp/src/continuous_engine.cpp:335-341 | namespaces are equal exactly when model and tokenizer revision are |
| `Queueing.RequestQueue.PopReady` | cpp/src/request_queue.cpp:11-19 | removes the request of least arrival time, and of least id among those, if it has arrived; otherwise nothing has arrived |
| `Queueing.RequestQueue.NextArrival` | cpp/src/request_queue.cpp:21-25 | the least arrival time, or none exactly for the empty queue |
| `Queueing.NotLaterIsFirst` | cpp/src/request_queue.cpp:27-33 | not-later means an earlier arrival, or an equal one with an id that is no greater |
| `Text.LessAtFirstDifference` | cpp/src/request_queue.cpp:32-32 | ids are compared at their first differing character |
| `Text.LessForPrefix` | cpp/src/request_queue.cpp:32-32 | a proper prefix is the smaller id |
| `Queueing.LaterTies` | cpp/src/request_queue.cpp:27-33 | the order's ties are exactly equal arrival time with equal id |
| `Queueing.NotLaterTransitive` | cpp/src/request_queue.cpp:27-33 | not-later is transitive, so a top exists |
| `Execution.TransitionsAreEdges` | cpp/src/execution_state.cpp:5-58 | the lifecycle has exactly ten edges, and a refused transition leaves the state alone |
| `CostModel.SaturatingCostIs` | cpp/src/cost_model.cpp:9-20 | min(INT64_MAX, fixed + per_unit * units), with every 64-bit intermediate in range |
| `CostModel.JitteredIs` | cpp/src/cost_model.cpp:49-69 | the split computation is base minus or plus floor(base * draw / 10000), capped at INT64_MAX |
| `CostModel.SplitScaling` | cpp/src/cost_model.cpp:57-61 | quotient and remainder scaled apart equal the product scaled whole, without overflow |
| `CostModel.DeterministicCostModel.Prefill` | cpp/src/cost_model.cpp:35-40 | some draw within the configured band applied to the saturating prefill cost |
| `CostModel.DeterministicCostModel.DecodeStep` | cpp/src/cost_model.cpp:42-47 | some draw within the configured band applied to the saturating decode cost |
| `CostModel.DeterministicCostModel.BandBounds` | cpp/src/cost_model.cpp:49-69 | every such cost is within floor(base * jitter / 10000) of its base |
| `RingSlots.MaskIsRemainder` | cpp/include/infersched/concurrency/mpsc_ring.hpp:21-21 | masking with a power of two less one is the remainder |
| `RingSlots.SlotsDiffer` | cpp/include/infersched/concurrency/mpsc_ring.hpp:37-37 | positions less than a lap apart use different cells |
| `MpscRing.Construct` | cpp/include/infersched/concurrency/mpsc_ring.hpp:20-28 | builds the initial ring exactly for powers of two from 2 on |
| `MpscRing.StepKeeps` | cpp/include/infersched/concurrency/mpsc_ring.hpp:33-71 | every access of every producer and of the consumer keeps the ring invariant |
| `MpscRing.SequenceRead` | cpp/include/infersched/concurrency/mpsc_ring.hpp:38-50 | a sequence read at a possibly stale position is behind it exactly when the position is current and exactly capacity claims are outstanding |
| `MpscRing.CellsAreExclusive` | cpp/include/infersched/concurrency/mpsc_ring.hpp:45-66 | no two threads are on one cell's value at once |
| `MpscRing.HeadRead` | cpp/include/infersched/concurrency/mpsc_ring.hpp:56-65 | TryPop finds a value exactly when the oldest claim has been published |
| `MpscRing.PopMissesCompletedPush` | cpp/include/infersched/concurrency/mpsc_ring.hpp:56-63 | a run in which TryPop returns nothing while a push that returned true is in the ring |
| `MpscRing.PopIsHead` | cpp/include/infersched/concurrency/mpsc_ring.hpp:59-66 | a positive difference is unreachable, and what is moved out is the oldest claim's value |
| `MpscRing.PopGoesThrough` | cpp/include/infersched/concurrency/mpsc_ring.hpp:56-71 | once the oldest claim is published every access of TryPop goes through and its value is returned |
| `MpscRing.StepRefinesQueue` | cpp/include/infersched/concurrency/mpsc_ring.hpp:33-71 | each step is a push at the back below capacity, a pop at the front, or nothing, of a bounded queue |
| `MpscRing.PushAlone` | cpp/include/infersched/concurrency/mpsc_ring.hpp:33-54 | an undisturbed push is accepted exactly when fewer than capacity claims are outstanding |
| `MpscRing.PoppedIsPrefixOfClaimed` | cpp/include/infersched/concurrency/mpsc_ring.hpp:33-71 | in every run the popped values are a prefix of the claimed values, then and ever after |
| `MpscRing.TrueMeansClaimedOnce` | cpp/include/infersched/concurrency/mpsc_ring.hpp:42-48 | a TryPush that returns true claimed exactly one position, for its own value |
| `MpscRing.FalseMeansFull` | cpp/include/infersched/concurrency/mpsc_ring.hpp:49-50 | a TryPush that returns false claimed nothing, and the ring was exactly full at its last sequence read |
| `DurableStores.DurableStore.AcquirePartition` | cpp/src/durable_store.cpp:107-120 | the epoch after the last one, or 1, with the new owner |
| `DurableStores.DurableStore.Ingest` | cpp/src/durable_store.cpp:122-136 | inserts exactly when neither id nor source position is taken |
| `DurableStores.DurableStore.AssignAttempt` | cpp/src/durable_store.cpp:138-169 | assigns exactly for the current epoch and a state that is not terminal, and returns the fence it stored |
| `DurableStores.DurableStore.Transition` | cpp/src/durable_store.cpp:171-185 | compare-and-set on version and state, to an arbitrary next state |
| `DurableStores.DurableStore.Finalize` | cpp/src/durable_store.cpp:187-216 | accepts exactly the stored fence of a dispatched request; result and outbox row appear together |
| `DurableStores.DurableStore.RecordPoison` | cpp/src/durable_store.cpp:218-246 | once per source position, payload and error with the dead-letter row |
| `DurableStores.DurableStore.FetchUnpublished` | cpp/src/durable_store.cpp:248-266 | unpublished rows of the outbox only, as many as there are up to the limit; with ascending ids they are in id order and before every unpublished row left out |
| `DurableStores.DurableStore.MarkPublished` | cpp/src/durable_store.cpp:268-274 | marks the row of that id and no other |
| `DurableHistory.RowLater` | cpp/src/durable_store.cpp:138-216 | a request never loses its row, changes its source or lowers its attempt, and once terminal its row never changes again, so IsTerminal never goes back on a yes |
| `DurableStores.DurableStore.IsSourcePublished` | cpp/src/durable_store.cpp:307-316 | true exactly when the source has a row and all its rows are published |
| `DurableHistory.SourcePublishedIff` | cpp/src/durable_store.cpp:307-316 | published means as many published rows as rows, and at least one |
| `DurableStores.SourceKeyInjective` | cpp/src/durable_store.cpp:231-232 | different source positions have different dead-letter keys |
| `DurableStores.HexRoundTrip` | cpp/src/durable_store.cpp:233-242 | the dead letter has two digits a byte, the high one first, and reads back to the payload |
| `DurableHistory.ApplyKeeps` | cpp/src/durable_store.cpp:107-274 | every transaction keeps the table invariant |
| `DurableHistory.AcceptedIffOneResultRow` | cpp/src/durable_store.cpp:187-216 | in every history a request has a terminal_result iff exactly one results row exists for it, with that payload and source position |
| `DurableHistory.FinalizesOnce` | cpp/src/durable_store.cpp:187-216 | Finalize succeeds at most once per request, and the stored result stays |
| `DurableHistory.AcceptedWasFinalized` | cpp/src/durable_store.cpp:187-201 | only a successful Finalize stores a result, and it is that payload |
| `DurableHistory.FinalizesWithLastFence` | cpp/src/durable_store.cpp:190-201 | Finalize succeeds only with the fence issued last for the request |
| `DurableHistory.LastFenceFinalizesIffDispatched` | cpp/src/durable_store.cpp:190-201 | the fence issued last is accepted exactly while the request is dispatched |
| `DurableHistory.StaleEpochCanFinalize` | cpp/src/durable_store.cpp:190-201 | a history in which an attempt of a superseded epoch completes |
| `DurableHistory.AssignsIff` | cpp/src/durable_store.cpp:138-169 | an assignment succeeds exactly when the request was ingested from that partition, the epoch is that of the partition's last acquisition, and no result and no terminal state has closed the request |
| `DurableHistory.SecondAssignmentFencesFirst` | cpp/src/durable_store.cpp:138-201 | two assignments in one epoch succeed; then the first fence no longer finalizes and the second does |
| `DurableHistory.EpochIsCount` | cpp/src/durable_store.cpp:107-120 | a partition's epoch is the number of its acquisitions |
| `DurableHistory.KnownIff` | cpp/src/durable_store.cpp:122-136 | a request is known from a position exactly when an ingestion found id and position free |
| `DurableHistory.TerminalIff` | cpp/src/durable_store.cpp:171-201 | a request is terminal exactly when a Finalize or a transition to a terminal state has succeeded |
| `DurableHistory.TransitionsIffUnchanged` | cpp/src/durable_store.cpp:171-185 | a transition with the version and state read earlier succeeds exactly if the state was open and nothing has changed the row since |
| `DurableHistory.PoisonedIff` | cpp/src/durable_store.cpp:218-246 | a position is poisoned exactly when it was recorded, and the first record stays |
| `DurableHistory.FencesAscend` | cpp/src/durable_store.cpp:138-169 | fences issued for a request strictly ascend in attempt, never descend in epoch and keep the partition |
| `DurableHistory.AcquisitionsAscend` | cpp/src/durable_store.cpp:107-120 | every acquisition of a partition returns a larger epoch than all earlier ones |
| `DurableHistory.SupersededNeverAssigns` | cpp/src/durable_store.cpp:148-156 | after a partition is acquired again no earlier epoch can ever assign |
| `DurableHistory.AnsweredIffOutcome` | cpp/src/durable_store.cpp:202-241 | a source position has an outbox row iff it is poisoned or an accepted request was ingested from it |
| `DurableHistory.RowsAreExplained` | cpp/src/durable_store.cpp:202-241 | every outbox row is the accepted result of its request with its source, or the dead letter of its poisoned position |
| `DurableHistory.RepeatIsNeverAnswered` | cpp/src/durable_store.cpp:122-136 | a request known from another position and only repeated at an offset never gets a row for that offset |
| `DurableHistory.RepeatedRequestIsNotAnswered` | cpp/src/durable_store.cpp:122-216 | a history in which the first offset of a request is answered and its repetition is not |
| `OutboxRelays.OutboxRelay.PublishBatch` | cpp/src/outbox_relay.cpp:74-84 | publishes and marks a prefix of the unpublished rows in order; it ends early only at the record the publisher refused, which alone may have reached the log unmarked; a publisher that confirms everything gets them all, up to the limit |
| `OutboxRelays.UnpublishedIsSuffix` | cpp/src/durable_store.cpp:248-266 | while published rows are a prefix, a fetch is the run of rows right after it |
| `OutboxRelays.StepKeeps` | cpp/src/outbox_relay.cpp:74-84 | every transaction, send, late landing, confirmation, mark and crash keeps the relay invariant |
| `OutboxRelays.PublishedIsPrefix` | cpp/src/outbox_relay.cpp:74-84 | with any number of relays the published rows are a prefix in id order |
| `OutboxRelays.FirstAppearancesInIdOrder` | cpp/src/outbox_relay.cpp:74-84 | before any record in the broker's log stands every record of a smaller id |
| `OutboxRelays.PublishedIsAtBroker` | cpp/src/outbox_relay.cpp:77-80 | a row is marked only when the broker has its record |
| `OutboxRelays.BrokerResultsAreAccepted` | cpp/src/durable_store.cpp:187-216 | every result at the broker is the accepted result of its request, with its source position |
| `OutboxRelays.TablesAreHistory` | cpp/src/outbox_relay.cpp:74-84 | the tables at every moment of a run are those at a moment of one history of transactions |
| `OffsetTracking.ContiguousOffsetTracker.MarkPublishComplete` | cpp/src/offset_tracker.cpp:5-16 | the committed offset ends the unbroken run of completed offsets after the base |
| `OffsetTracking.CompletedKeeps` | cpp/src/offset_tracker.cpp:5-16 | the committed offset never moves back and stays the end of the unbroken run |
| `OffsetTracking.OrderIsIrrelevant` | cpp/src/offset_tracker.cpp:5-16 | the tracker depends on which offsets completed, not on their order |
| `KafkaPollers.KafkaPoller.Assign` | cpp/src/kafka_poller.cpp:81-89 | the partitions are owned and an event is queued |
| `KafkaPollers.KafkaPoller.Revoke` | cpp/src/kafka_poller.cpp:90-104 | ownership, tracker and queued messages of exactly those partitions are gone; queued commits stay |
| `KafkaPollers.KafkaPoller.Deliver` | cpp/src/kafka_poller.cpp:174-182 | the first message of a partition starts its tracker just below it; a known tracker stays |
| `KafkaPollers.KafkaPoller.Pop` | cpp/src/kafka_poller.cpp:43-53 | the front message, or none exactly for an empty queue |
| `KafkaPollers.KafkaPoller.MarkPublishComplete` | cpp/src/kafka_poller.cpp:109-124 | a commit is queued exactly when the safe offset moves; without a tracker nothing happens |
| `KafkaPollers.AllMarkedIsCommitted` | cpp/src/kafka_poller.cpp:109-124 | once every offset up to n has been marked, in whatever order, a commit that covers n is queued |
| `KafkaPollers.OutsideMembers` | cpp/src/kafka_poller.cpp:96-98 | a revocation drops exactly the messages of the revoked partitions |
| `Routers.MoveKeeps` | cpp/src/durable_router_main.cpp:124-203 | every move of every router, relay and the broker keeps the pipeline invariant |
| `Routers.QueuedCommitsAreAnswered` | cpp/src/durable_router_main.cpp:177-203 | whenever an offset is queued for commit, every source offset above the tracker's base up to it has a published outbox row whose record the broker has |
| `Routers.CommittedOffsetsAreAnswered` | cpp/src/kafka_poller.cpp:150-184 | over a topic with arbitrary holes, the committed position never passes a message without an acknowledged outcome, except messages skipped by a consumer that had no position under `latest` |
| `Routers.EarliestSkipsNothing` | cpp/src/kafka_poller.cpp:12-19 | under `earliest` nothing is ever skipped |
| `Routers.CommittedOffsetsHaveOutcome` | cpp/src/durable_router_main.cpp:177-203 | for every message below the committed position the broker's log holds the accepted result of the request ingested from it, or the dead letter with its payload in hex |
| `Routers.RepeatStopsCommits` | cpp/src/durable_router_main.cpp:188-193 | the committed position does not pass a message of the topic that only repeats a request known from another position |
| `Routers.TablesAreHistory` | cpp/src/durable_router_main.cpp:124-203 | the tables of a run are those of a history of transactions, so every theorem about histories holds in runs |
| `EngineServices.EngineService.ValidateAndReserve` | cpp/src/engine_service.cpp:96-131 | the verdict in the order of the source's tests and the complete new state, with the service invariant kept |
| `EngineServices.EngineService.Cancel` | cpp/src/engine_service.cpp:54-68 | supersedes the live job of exactly this epoch and attempt, else nothing |
| `EngineServices.CancelIsFenced` | cpp/src/engine_service.cpp:59-66 | a cancellation with another epoch or attempt than the live job's changes nothing |
| `EngineServices.EngineRequestIs` | cpp/src/engine_service.cpp:204-219 | which dispatched requests the engine can serve and what their output is, in terms of the dispatch |
| `EngineServices.SharedResultIff` | cpp/src/engine_service.cpp:204-219 | two dispatches share a cached result exactly when the fields that matter agree, sampling parameters to the micro |
| `EngineServices.MicrosIs` | cpp/src/engine_service.cpp:214-218 | sampling parameters are clamped at zero and truncated to micros |
| `EngineServices.EngineService.TakeBatch` | cpp/src/engine_service.cpp:146-150 | the whole queue becomes the batch, with pairwise different request ids |
| `EngineServices.EngineService.StoreResult` | cpp/src/engine_service.cpp:169-186 | the next job has the engine's result, or a failure if it was superseded |
| `EngineServices.EngineService.CleanUp` | cpp/src/engine_service.cpp:188-200 | exactly the batch leaves the live table and the running count |
| `EngineServices.AnsweredHasOwnResult` | cpp/src/engine_service.cpp:133-201 | in every interleaving, with dispatches and cancellations between take and store, an answered job has the result of its own request or reports that it was superseded |
| `EngineServices.CancelledBeforeResultFails` | cpp/src/engine_service.cpp:180-183 | a job cancelled before its result is stored reports that it was superseded, in every continuation |
| `EngineServices.EngineService.BeginDrain` | cpp/src/engine_service.cpp:75-76 | from here on dispatches are refused; nothing else moves |
| `EngineServices.EngineWorker.RunBatch` | cpp/src/engine_service.cpp:153-181 | on an idle engine every request of the batch finds its own result, so `missing_engine_result` is never reported |
| `EngineServices.BatchFindsResults` | cpp/src/engine_service.cpp:164-179 | results looked up by request id are those of the batch's own requests |
| `EngineServices.RefusedMovesEpochIff` | cpp/src/engine_service.cpp:99-125 | a refused dispatch moves the partition's epoch exactly if the service takes dispatches, the epoch is newer, and the attempt is stale or a job is in flight |
| `EngineServices.RefusedDispatchFencesOut` | cpp/src/engine_service.cpp:108-125 | a run in which a refused retry makes the epoch of the last accepted dispatch stale |
| `EngineServices.StepKeeps` | cpp/src/engine_service.cpp:54-202 | every handler and worker step keeps the service invariant |
| `EngineServices.AcceptedFencesAscend` | cpp/src/engine_service.cpp:105-128 | accepted dispatches have strictly ascending attempts per request and never descending epochs per partition |
| `EngineServices.OneUnfinishedJobPerRequest` | cpp/src/engine_service.cpp:119-129 | at most one unfinished job per request id, and a live entry always names one |
| `EngineServices.AcceptedIsAnsweredOrInFlight` | cpp/src/engine_service.cpp:146-200 | no accepted dispatch is forgotten: it is in flight, or has the result of its own request or the report that it was superseded |
| `EngineServices.AnswerIsFinal` | cpp/src/engine_service.cpp:169-186 | a job's result never changes once it is there |
| `EngineServices.QuietAfterDrain` | cpp/src/engine_service.cpp:70-80 | after a Drain call has returned nothing is in flight and nothing is accepted any more |

## Left out

- Statistics counters and `prefix_accounted_requests_` of the engine, and the reply fields computed from them.
- DeterministicEngine, StaticBatchPolicy, ShardedRegistry, RouterService leases, RequestIngestor retries and Histogram: they would add easier members or wall-clock and floating-point facts.
- `RecoverUnresolved`, `Capacity`, `ToString`, `RefCount`, `PrefixCache::Get` and other members that only read.
- gRPC, librdkafka, libpqxx, SQL text and migrations: a transaction is one atomic step, outbox ids ascend in commit order, and `CheckedInt64` overflow is not modelled.
- `OutboxPublisher.Publish`: the delivery-callback flags and timeouts of `KafkaOutboxPublisher` are not modelled; a confirmed record is assumed to have reached the log, and an unconfirmed one may still land later.
- The router's main loop beyond the order check, then mark: its other transactions are free steps that any participant may take at any time; no liveness is claimed for it.
- Kafka's source topic is a set of positions that grows at the end of a partition and may lose any message; consumer-group generations are not modelled, and a queued commit may be accepted or refused at any later time.
- Weak memory orders and 64-bit wrap-around of the ring's positions: memory is sequentially consistent and positions are unbounded.
- Reference counts, stamps, pin counters, the clock and the epoch, attempt and version columns are unbounded; the sizes in requests and configurations and the 64-bit costs are bounded as in the source.
- The random generator: `ApplyJitter` takes any draw of the configured range.
- `RequestQueue` keeps the heap as an unordered sequence; the heap's internal layout is not modelled, and ties of arrival time and id are resolved by position.
- `RadixPrefixCache` keeps each namespace's tree as a value that the class reassigns; node identity and pointers are not modelled.
- `ExecutionStateMachine` is a value with a transition function; its refused transitions leave it as it was.
- Constructor exceptions of the allocator, the caches and the cost model are preconditions of those classes; `Create` models which of them the engine's construction throws.
- Locks and condition variables of `EngineService` and `KafkaPoller`: each critical section is one step, and waiting is the step's enabling condition; a `weak_ptr` of the live table is the job itself, which `OneUnfinishedJobPerRequest` shows to be still held.
- Temperature and top_p are real numbers; conversion of out-of-range doubles is not modelled.
- Python gateway, load generator, protobuf, benchmarks, scripts and HTML.
