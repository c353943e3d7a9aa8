/**
 The continuous-batching engine (cpp/src/continuous_engine.cpp) over the paged allocator, the radix
 prefix cache and the result cache.
 */
module ContinuousEngines {
  import opened Arithmetic
  import opened Text
  import opened Requests
  import opened PagedKv
  import opened RadixTree
  import opened RadixCache
  import opened ResultCaching
  import opened Queueing
  import opened Execution
  import opened EngineSpec
  import opened Preemption
  import opened Iterations
  import CostModel

  /** What happened to one candidate of the admission scan. */
  datatype Verdict = Rejected | Barred | PrefillFull | TooWide | Hit | NoBlocks | Admitted

  /** The local variables of an admission scan; `more` says whether it goes on. */
  datatype ScanState = ScanState(deferred: seq<EngineRequest>, budget: nat, sequences: nat, any: bool, more: bool)

  class ContinuousEngine {
    const config: EngineConfig
    const kv: PagedKvCache
    const radix: RadixPrefixCache
    const cache: ResultCache
    const pending: RequestQueue
    const cost: CostModel.DeterministicCostModel
    var now: int
    var active: seq<Active>
    var results: seq<EngineResult>
    var preempted: set<string>
    /** Every request submitted so far, without arrival times. */
    ghost var submitted: multiset<EngineRequest>
    /** served[i] is the request that results[i] answers. */
    ghost var served: seq<EngineRequest>
    ghost var window: Window

    ghost predicate Wired() {
      && ConfigAccepted(config) && radix.kv == kv && cost.config == config.costModel
      && radix.capacity == config.prefixCacheEntries && cache.capacity == config.resultCacheEntries
    }

    constructor (config: EngineConfig)
      requires ConfigAccepted(config)
      ensures Valid() && this.config == config
      ensures pending.items == [] && active == [] && results == [] && submitted == multiset{}
      ensures fresh(kv) && fresh(radix) && fresh(cache) && fresh(pending)
    {
      hide Consistent, TreeOk, Agrees, BatchOk, AllHold, CacheSound, ResultsOk, Conserved, WindowOk, Cores, Injective;
      Fresh(config);
      this.config := config;
      var blocks := new PagedKvCache(config.kvBlocks, config.kvBlockSizeTokens);
      kv := blocks;
      radix := new RadixPrefixCache(config.prefixCacheEntries, blocks);
      cache := new ResultCache(config.resultCacheEntries);
      pending := new RequestQueue();
      cost := new CostModel.DeterministicCostModel(config.costModel);
      now, active, results, preempted := 0, [], [], {};
      submitted, served, window := multiset{}, [], Window(multiset{}, multiset{}, multiset{});
    }

    static lemma Fresh(c: EngineConfig)
      requires c.kvBlockSizeTokens > 0
      ensures BatchOk(c, [], map[]) && AllHold(c.kvBlockSizeTokens, [], map[], 0)
      ensures CacheSound(map[]) && ResultsOk(c, [], []) && Injective(map[])
      ensures Conserved(multiset{}, multiset(Cores([])), [], [])
      ensures WindowOk(c, Window(multiset{}, multiset{}, multiset{}), multiset(Cores([])), [], [], {})
    {
    }

    /** Allocator and prefix tree agree, and no block hangs in two tree nodes. */
    ghost predicate Tree()
      reads kv, radix
    {
      && Wired()
      && radix.Valid()
      && kv.blockSizeTokens == config.kvBlockSizeTokens
      && |kv.refcounts| == config.kvBlocks
      && Injective(radix.view)
    }

    /** The allocator's sequences are the active requests, each with exactly its blocks. */
    ghost predicate Batch()
      reads this, kv
    {
      && Wired()
      && BatchOk(config, active, kv.sequences)
      && AllHold(config.kvBlockSizeTokens, active, kv.sequences, 0)
    }

    /** Requests, results and the result cache, with `waiting` not in the batch yet. */
    ghost predicate Books(waiting: multiset<EngineRequest>)
      reads this, cache
    {
      && Wired()
      && cache.Valid() && CacheSound(cache.entries)
      && ResultsOk(config, results, served)
      && Conserved(submitted, waiting, active, served)
      && WindowOk(config, window, waiting, active, served, preempted)
    }

    ghost function Waiting(): multiset<EngineRequest>
      reads pending
    {
      multiset(Cores(pending.items))
    }

    /** The block ids a prefix match offers to share. */
    static function SharedBlocks(m: Option<Match>): seq<BlockId> {
      if m.Some? then m.value.blocks else []
    }

    method Matched(ns: string, hashes: seq<string>) returns (m: Option<Match>)
      requires Tree()
      modifies radix
      ensures Tree() && radix.nodeCount == old(radix.nodeCount)
      ensures m.Some? ==> m.value.matchedBlockCount == |m.value.blocks| > 0
      ensures MatchBlocks(radix.view, ns, hashes, SharedBlocks(m))
      ensures Shrunk(old(radix.view), radix.view) && radix.view.Keys == old(radix.view).Keys
    {
      hide Consistent, TreeOk, Injective, Touched, ConfigAccepted;
      if hashes == [] {
        NothingToMatch(radix.view, ns);
        return None;
      }
      ghost var v, clock := radix.view, radix.accessClock;
      m := radix.GetLongest(ns, hashes);
      TouchedMatch(v, clock, ns, hashes, SharedBlocks(m));
      TouchedShrinks(v, clock, ns, hashes, |SharedBlocks(m)|);
    }

    static lemma NothingToMatch(view: map<Path, Entry>, ns: string)
      ensures MatchBlocks(view, ns, [], [])
    {
    }

    method Evict() returns (evicted: bool)
      requires Tree()
      modifies kv, radix
      ensures Tree() && kv.sequences == old(kv.sequences)
      ensures evicted <==> old(radix.view) != map[]
      ensures evicted ==> radix.nodeCount < old(radix.nodeCount) && Shrunk(old(radix.view), radix.view)
      ensures !evicted ==> radix.view == old(radix.view) && kv.View() == old(kv.View())
    {
      hide Consistent, TreeOk, Injective, ConfigAccepted, IsOldestLeaf, HasOldestLeaf, Drop, Released;
      ghost var v := radix.view;
      evicted := radix.EvictOldest();
      if evicted {
        StillInjective(v, OldestLeaf(v));
      }
    }

    static lemma StillInjective(view: map<Path, Entry>, p: Path)
      requires Injective(view)
      ensures Injective(view - {p})
    {
    }

    /** One allocation attempt; a match taken from the current tree is never refused as invalid. */
    method AllocateShared(id: string, promptBlocks: nat, ns: string, hashes: seq<string>, m: Option<Match>)
        returns (status: AllocationStatus)
      requires Tree() && |hashes| <= promptBlocks
      requires MatchBlocks(radix.view, ns, hashes, SharedBlocks(m))
      modifies kv
      ensures Tree()
      ensures status != InvalidSharedBlock
      ensures status == SequenceAlreadyExists <==> id in old(kv.sequences)
      ensures status != Allocated ==> kv.View() == old(kv.View())
      ensures status == InsufficientBlocks ==> |kv.freeList| < promptBlocks - |SharedBlocks(m)|
      ensures status == Allocated ==>
        && id in kv.sequences && kv.sequences == old(kv.sequences)[id := kv.sequences[id]]
        && |kv.sequences[id]| == promptBlocks
        && Grafts(radix.view, ns, hashes, kv.sequences[id], |SharedBlocks(m)|)
    {
      hide Consistent, Injective, ConfigAccepted, Grafts, MatchBlocks, LiveAndDistinct, Shows, StampsOk, PinsOk, Issued, Bump;
      ghost var v := kv.View();
      var shared := SharedBlocks(m);
      MatchIsUsable(radix.view, Issued(radix.nextPinId), v, ns, hashes, shared);
      MatchFits(radix.view, ns, hashes, shared);
      status := kv.Allocate(id, promptBlocks, shared);
      if status == Allocated {
        AllocationGrafts(radix.view, Issued(radix.nextPinId), v, id, promptBlocks, ns, hashes, shared);
      }
    }

    static lemma MatchFits(view: map<Path, Entry>, ns: string, hashes: seq<string>, blocks: seq<BlockId>)
      requires MatchBlocks(view, ns, hashes, blocks)
      ensures |blocks| <= |hashes|
    {
    }

    /** Gets blocks for a prompt, evicting prefix nodes until they suffice or none is left. */
    method AllocateEvicting(id: string, promptBlocks: nat, ns: string, hashes: seq<string>)
        returns (status: AllocationStatus, m: Option<Match>)
      requires Tree() && |hashes| <= promptBlocks
      modifies kv, radix
      ensures Tree()
      ensures status != InvalidSharedBlock
      ensures status == SequenceAlreadyExists <==> id in old(kv.sequences)
      ensures status != Allocated ==> kv.sequences == old(kv.sequences)
      ensures status == InsufficientBlocks ==> radix.view == map[] && |kv.freeList| < promptBlocks
      ensures m.Some? ==> m.value.matchedBlockCount == |m.value.blocks| > 0
      ensures status == Allocated ==>
        && id in kv.sequences && kv.sequences == old(kv.sequences)[id := kv.sequences[id]]
        && |kv.sequences[id]| == promptBlocks
        && Grafts(radix.view, ns, hashes, kv.sequences[id], |SharedBlocks(m)|)
      ensures Shrunk(old(radix.view), radix.view)
      ensures |old(kv.freeList)| >= promptBlocks ==> radix.view.Keys == old(radix.view).Keys
    {
      hide Consistent, TreeOk, Injective, ConfigAccepted, MatchBlocks, Grafts, Shrunk;
      m := Matched(ns, hashes);
      while true
        invariant Tree() && kv.sequences == old(kv.sequences) && Shrunk(old(radix.view), radix.view)
        invariant |old(kv.freeList)| >= promptBlocks ==>
          radix.view.Keys == old(radix.view).Keys && kv.freeList == old(kv.freeList)
        invariant m.Some? ==> m.value.matchedBlockCount == |m.value.blocks| > 0
        invariant MatchBlocks(radix.view, ns, hashes, SharedBlocks(m))
        decreases radix.nodeCount
      {
        status := AllocateShared(id, promptBlocks, ns, hashes, m);
        if status != InsufficientBlocks {
          return;
        }
        NoMatch(radix.view, ns, hashes, SharedBlocks(m));
        ghost var view := radix.view;
        var evicted := Evict();
        if !evicted {
          return;
        }
        ShrunkFurther(old(radix.view), view, radix.view);
        view := radix.view;
        m := Matched(ns, hashes);
        ShrunkFurther(old(radix.view), view, radix.view);
      }
    }

    lemma AllMemoryFree()
      requires Tree() && radix.view == map[] && kv.sequences == map[]
      ensures |kv.freeList| == config.kvBlocks
    {
      hide Consistent, Shows, StampsOk, Backed, KeysDistinct;
      assert kv.pins == map[];
      NoHolder(kv.View());
    }

    /** Appends a result and books the request it answers. */
    method Answer(result: EngineResult, ghost r: EngineRequest, ghost waiting: multiset<EngineRequest>)
      requires Books(waiting) && r in waiting && ResultFor(config, result, r)
      requires r.requestId !in preempted || ImpossibleReason(config, r).Some?
      modifies this`results, this`served
      ensures Books(waiting - multiset{r})
      ensures results == old(results) + [result] && served == old(served) + [r]
    {
      hide Agrees, CacheSound, ImpossibleReason, Conserved, WindowOk, ResultFor;
      BooksServe(config, submitted, window, waiting, active, served, preempted, r);
      results, served := results + [result], served + [r];
    }

    /** A cache hit is always the candidate's own output. */
    method LookUp(candidate: EngineRequest, ghost waiting: multiset<EngineRequest>) returns (cached: Option<string>)
      requires Books(waiting)
      modifies cache
      ensures Books(waiting)
      ensures cached.Some? <==> ResultKey(candidate) in old(cache.entries)
      ensures cached.Some? ==> cached.value == SimulatedOutput(candidate)
    {
      hide Agrees, ConfigAccepted, ImpossibleReason, Conserved, WindowOk, ResultsOk, ResultKey, SimulatedOutput;
      cached := cache.Get(ResultKey(candidate));
    }

    /** Caches the prompt's blocks after a successful allocation. */
    method RememberPrefix(id: string, ns: string, hashes: seq<string>, ghost matched: nat)
      requires Tree() && id in kv.sequences && Grafts(radix.view, ns, hashes, kv.sequences[id], matched)
      modifies kv, radix
      ensures Tree() && kv.sequences == old(kv.sequences)
      ensures var blocks := kv.sequences[id];
        radix.view == EvictedTo(Inserted(old(radix.view), old(radix.nextPinId), old(radix.accessClock), ns, hashes, blocks,
                                         Min(|hashes|, |blocks|)).view, config.prefixCacheEntries)
    {
      hide Consistent, TreeOk, ConfigAccepted, Injective, Grafts, EvictedTo, Inserted, PutLength;
      SequenceGoesIn(id, ns, hashes);
      ghost var v, next, clock, blocks := radix.view, radix.nextPinId, radix.accessClock, kv.sequences[id];
      ghost var count := Min(|hashes|, |blocks|);
      ghost var n := PutLength(v, kv.refcounts, ns, hashes, blocks, count);
      InsertedInjective(v, next, clock, ns, hashes, blocks, matched, n);
      EvictedInjective(Inserted(v, next, clock, ns, hashes, blocks, n).view, radix.capacity);
      var inserted := radix.PutBlockPrefixes(ns, hashes, kv.sequences[id]);
    }

    /** A sequence's own blocks are live, so its prompt's prefixes all go in. */
    lemma SequenceGoesIn(id: string, ns: string, hashes: seq<string>)
      requires Tree() && id in kv.sequences
      ensures var blocks := kv.sequences[id];
        PutLength(radix.view, kv.refcounts, ns, hashes, blocks, Min(|hashes|, |blocks|)) == Min(|hashes|, |blocks|)
    {
      hide TreeOk, Injective, ConfigAccepted, PutLength, Consistent;
      var blocks := kv.sequences[id];
      forall i | 0 <= i < Min(|hashes|, |blocks|) ensures IsLive(kv.refcounts, blocks[i]) {
        HeldIsLive(kv.View(), blocks[i]);
      }
      LiveBlocksGoIn(radix.view, kv.refcounts, ns, hashes, blocks, Min(|hashes|, |blocks|));
    }

    /** Cost before jitter of prefilling what `matched` cached blocks leave of a prompt. */
    ghost function PrefillBase(promptTokens: SizeT, matched: nat): CostModel.Cost
      requires Wired()
    {
      CostModel.SaturatingCost(config.costModel.prefillFixed, config.costModel.prefillPerToken,
                               UncachedTokens(config, promptTokens, matched))
    }

    /** The clock moved by a jittered cost around `base`. */
    ghost predicate Elapsed(base: CostModel.Cost, from: int, to: int)
      requires Wired()
    {
      exists c: CostModel.Cost :: cost.InBand(base, c) && to == from + c as int
    }

    /** Simulated prefill time for the part of the prompt that no cached block covers. */
    method PrefillCost(promptTokens: SizeT, promptBlocks: nat, matched: nat) returns (c: CostModel.Cost)
      requires Wired() && promptBlocks == BlocksForTokens(promptTokens, config.kvBlockSizeTokens)
      ensures cost.InBand(PrefillBase(promptTokens, matched), c)
    {
      hide BlocksForTokens;
      if matched < promptBlocks {
        CachedTokensFit(config, promptTokens, matched);
      }
      var cachedTokens := if matched >= promptBlocks then promptTokens else matched * config.kvBlockSizeTokens;
      c := cost.Prefill(promptTokens - cachedTokens);
    }

    /** Nothing is left to evict and the free blocks do not hold the prompt. */
    ghost predicate OutOfBlocks(r: EngineRequest)
      requires Wired()
      reads kv, radix
    {
      radix.view == map[] && |kv.freeList| < BlocksForTokens(r.promptTokens, config.kvBlockSizeTokens)
    }

    /** The candidate joins the batch with blocks for its prompt, or there are not enough blocks. */
    method TryAdmit(candidate: EngineRequest, ghost waiting: multiset<EngineRequest>)
        returns (v: Verdict, ghost tree: map<Path, Entry>, ghost matched: nat)
      requires Tree() && Batch() && Books(waiting) && Core(candidate) in waiting
      requires ImpossibleReason(config, candidate).None? && candidate.requestId !in preempted
      modifies this, kv, radix
      ensures Tree() && Batch()
      ensures preempted == old(preempted) && submitted == old(submitted)
      ensures results == old(results) && served == old(served) && now >= old(now)
      ensures v == NoBlocks || v == Admitted
      ensures v == NoBlocks ==> Books(waiting) && active == old(active) && now == old(now) && window == old(window)
      ensures v == NoBlocks ==> candidate.requestId in kv.sequences || OutOfBlocks(candidate)
      ensures Extends(old(kv.sequences), kv.sequences)
      ensures v == Admitted ==> Books(waiting - multiset{Core(candidate)})
      ensures v == Admitted ==> |active| == |old(active)| + 1 && active[..|old(active)|] == old(active)
      ensures v == Admitted ==> active[|old(active)|] == Active(candidate, Decode, 0, matched > 0, 0)
      ensures v == Admitted ==>
        && candidate.requestId in kv.sequences
        && Grafts(tree, PrefixNamespace(candidate), PromptHashes(candidate), kv.sequences[candidate.requestId], matched)
        && Shrunk(old(radix.view), tree) && (HasRoom(candidate, |old(kv.freeList)|) ==> tree.Keys == old(radix.view).Keys)
        && Elapsed(PrefillBase(candidate.promptTokens, matched), old(now), now)
      ensures old(active) == [] ==> v == Admitted
    {
      hide Agrees, CacheSound, ConfigAccepted, ImpossibleReason, Conserved, WindowOk, ResultsOk, BlocksForTokens,
           Consistent, TreeOk, Injective, Grafts, PrefixNamespace, BatchOk, AllHold, Shrunk, PrefillBase, Elapsed,
           EvictedTo, Inserted;
      var promptBlocks := BlocksForTokens(candidate.promptTokens, config.kvBlockSizeTokens);
      var n := if |candidate.promptBlockHashes| < promptBlocks then |candidate.promptBlockHashes| else promptBlocks;
      var hashes := candidate.promptBlockHashes[..n];
      ghost var sequences := kv.sequences;
      var status, m := AllocateEvicting(candidate.requestId, promptBlocks, PrefixNamespace(candidate), hashes);
      if status != Allocated {
        if active == [] {
          EmptyBatchHasRoom(candidate);
        }
        return NoBlocks, radix.view, 0;
      }
      tree, matched := radix.view, |SharedBlocks(m)|;
      Join(candidate, m, promptBlocks, hashes, sequences, waiting);
      v := Admitted;
    }

    /** The hashes that name blocks of the prompt. */
    function PromptHashes(r: EngineRequest): seq<string>
      requires Wired()
    {
      r.promptBlockHashes[..Min(|r.promptBlockHashes|, BlocksForTokens(r.promptTokens, config.kvBlockSizeTokens))]
    }

    predicate HasRoom(r: EngineRequest, free: nat)
      requires Wired()
    {
      free >= BlocksForTokens(r.promptTokens, config.kvBlockSizeTokens)
    }

    /** With an empty batch, an empty tree leaves room for every possible prompt. */
    lemma EmptyBatchHasRoom(candidate: EngineRequest)
      requires Tree() && Batch() && active == []
      requires ImpossibleReason(config, candidate).None?
      ensures candidate.requestId !in kv.sequences
      ensures radix.view == map[] ==>
        |kv.freeList| >= BlocksForTokens(candidate.promptTokens, config.kvBlockSizeTokens)
    {
      hide Consistent, TreeOk, Injective, ImpossibleReason, BlocksForTokens;
      assert kv.sequences == map[];
      PromptFits(config, candidate);
      if radix.view == map[] {
        AllMemoryFree();
      }
    }

    /** The rest of an admission once the blocks are there. */
    method Join(candidate: EngineRequest, m: Option<Match>, promptBlocks: nat, hashes: seq<string>,
                ghost sequences: map<string, seq<BlockId>>, ghost waiting: multiset<EngineRequest>)
      requires Tree() && Books(waiting) && Core(candidate) in waiting
      requires ImpossibleReason(config, candidate).None? && candidate.requestId !in preempted
      requires BatchOk(config, active, sequences) && AllHold(config.kvBlockSizeTokens, active, sequences, 0)
      requires candidate.requestId !in sequences && candidate.requestId in kv.sequences
      requires kv.sequences == sequences[candidate.requestId := kv.sequences[candidate.requestId]]
      requires promptBlocks == BlocksForTokens(candidate.promptTokens, config.kvBlockSizeTokens)
      requires |kv.sequences[candidate.requestId]| == promptBlocks
      requires m.Some? ==> m.value.matchedBlockCount == |m.value.blocks|
      requires Grafts(radix.view, PrefixNamespace(candidate), hashes, kv.sequences[candidate.requestId], |SharedBlocks(m)|)
      modifies this, kv, radix
      ensures Tree() && Batch() && Books(waiting - multiset{Core(candidate)})
      ensures preempted == old(preempted) && submitted == old(submitted)
      ensures results == old(results) && served == old(served) && now >= old(now)
      ensures |active| == |old(active)| + 1 && active[..|old(active)|] == old(active)
      ensures active[|old(active)|] == Active(candidate, Decode, 0, m.Some?, 0)
      ensures Elapsed(PrefillBase(candidate.promptTokens, |SharedBlocks(m)|), old(now), now)
      ensures kv.sequences == old(kv.sequences)
      ensures radix.view == if candidate.promptBlockHashes == [] then old(radix.view) else
        EvictedTo(Inserted(old(radix.view), old(radix.nextPinId), old(radix.accessClock), PrefixNamespace(candidate), hashes,
                           kv.sequences[candidate.requestId], Min(|hashes|, promptBlocks)).view, config.prefixCacheEntries)
    {
      hide Agrees, CacheSound, ConfigAccepted, ImpossibleReason, Conserved, WindowOk, ResultsOk, BlocksForTokens,
           Consistent, TreeOk, Injective, Grafts, PrefixNamespace, BatchOk, AllHold, PrefillBase, EvictedTo, Inserted,
           ResultFor, Cores;
      var state := TransitionTo(WaitingAdmission, Prefill);
      var matched := if m.Some? then m.value.matchedBlockCount else 0;
      var prefill := PrefillCost(candidate.promptTokens, promptBlocks, matched);
      now := now + prefill as int;
      var a := Active(candidate, TransitionTo(state, Decode), 0, m.Some?, 0);
      if candidate.promptBlockHashes != [] {
        RememberPrefix(candidate.requestId, PrefixNamespace(candidate), hashes, |SharedBlocks(m)|);
      }
      Enlist(a, sequences, waiting);
    }

    method Enlist(a: Active, ghost sequences: map<string, seq<BlockId>>, ghost waiting: multiset<EngineRequest>)
      requires Books(waiting) && Core(a.request) in waiting
      requires ImpossibleReason(config, a.request).None? && a.request.requestId !in preempted
      requires a.generatedTokens == 0 && a.state == Decode
      requires BatchOk(config, active, sequences) && AllHold(config.kvBlockSizeTokens, active, sequences, 0)
      requires a.request.requestId !in sequences && a.request.requestId in kv.sequences
      requires kv.sequences == sequences[a.request.requestId := kv.sequences[a.request.requestId]]
      requires |kv.sequences[a.request.requestId]| == BlocksForTokens(a.request.promptTokens, config.kvBlockSizeTokens)
      modifies this`active, this`window
      ensures Batch() && Books(waiting - multiset{Core(a.request)})
      ensures active == old(active) + [a]
    {
      hide Agrees, CacheSound, ImpossibleReason, Conserved, WindowOk, ResultsOk, BlocksForTokens, BatchOk, AllHold;
      BatchAdmit(config, active, sequences, a, kv.sequences[a.request.requestId]);
      BooksAdmit(config, submitted, window, waiting, active, served, preempted, a);
      window := window.(admitted := window.admitted + multiset{Core(a.request)});
      active := active + [a];
    }

    static predicate Consumes(v: Verdict) {
      v == Rejected || v == Hit || v == Admitted
    }

    /** One candidate of the scan, in the order of the source's tests. */
    method Consider(candidate: EngineRequest, prefillBudget: nat, prefillSequences: nat,
                    ghost waiting: multiset<EngineRequest>) returns (v: Verdict)
      requires Tree() && Batch() && Books(waiting) && Core(candidate) in waiting
      requires prefillBudget <= config.maxBatchTokens && (active == [] ==> preempted == {})
      modifies this, kv, radix, cache
      ensures Tree() && Batch() && Books(if Consumes(v) then waiting - multiset{Core(candidate)} else waiting)
      ensures preempted == old(preempted) && submitted == old(submitted) && now >= old(now)
      ensures old(results) <= results && old(served) <= served
      ensures |results| == |old(results)| + if v == Rejected || v == Hit then 1 else 0
      ensures |active| == |old(active)| + (if v == Admitted then 1 else 0) && active[..|old(active)|] == old(active)
      ensures v == Rejected <==> !Fits(config, candidate)
      ensures Extends(old(kv.sequences), kv.sequences)
      ensures v == Barred <==> v != Rejected && old(active) != [] && candidate.requestId in preempted
      ensures v == PrefillFull <==>
        v != Rejected && v != Barred && prefillSequences == config.maxPrefillSequencesPerIteration
      ensures v == TooWide <==>
        && v != Rejected && v != Barred && v != PrefillFull
        && |old(active)| + prefillBudget + candidate.promptTokens > config.maxBatchTokens
      ensures v == Hit <==>
        && v != Rejected && v != Barred && v != PrefillFull && v != TooWide
        && ResultKey(candidate) in old(cache.entries)
      ensures v == NoBlocks ==> candidate.requestId in kv.sequences || OutOfBlocks(candidate)
      ensures v == Rejected ==> ImpossibleReason(config, candidate).Some? && results == old(results) + [
        EngineResult(candidate.requestId, "", now, 0, false, false, false, ImpossibleReason(config, candidate).value)]
      ensures v == Hit ==> results == old(results) + [
        EngineResult(candidate.requestId, SimulatedOutput(candidate), now, now, true, false, true, "")]
      ensures v == Admitted ==> active[|old(active)|].request == candidate && candidate.requestId !in preempted
      ensures old(active) == [] && prefillBudget == 0 && prefillSequences == 0 ==> Consumes(v)
    {
      hide Agrees, CacheSound, Conserved, WindowOk, ResultsOk, BlocksForTokens, Consistent, TreeOk, Injective,
           PrefixNamespace, BatchOk, AllHold, ImpossibleReason, SimulatedOutput, ResultFor, Fits;
      CoreLooksAlike(config, candidate);
      ImpossibleReasonIs(config, candidate);
      var reason := ImpossibleReason(config, candidate);
      if reason.Some? {
        var refused := EngineResult(candidate.requestId, "", now, 0, false, false, false, reason.value);
        ReportAnswers(config, refused, Core(candidate));
        Answer(refused, Core(candidate), waiting);
        return Rejected;
      }
      if active != [] && candidate.requestId in preempted {
        return Barred;
      }
      if prefillSequences == config.maxPrefillSequencesPerIteration {
        return PrefillFull;
      }
      PromptFits(config, candidate);
      if |active| > config.maxBatchTokens - prefillBudget
         || candidate.promptTokens > config.maxBatchTokens - prefillBudget - |active| {
        return TooWide;
      }
      var cached := LookUp(candidate, waiting);
      if cached.Some? {
        var hit := EngineResult(candidate.requestId, cached.value, now, now, true, false, true, "");
        ReportAnswers(config, hit, Core(candidate));
        Answer(hit, Core(candidate), waiting);
        return Hit;
      }
      ghost var tree, matched;
      v, tree, matched := TryAdmit(candidate, waiting);
    }

    /** Why a candidate is put aside. */
    ghost predicate Deferral(r: EngineRequest, v: Verdict, budget: nat, sequences: nat)
      requires Wired()
      reads this, kv, radix
    {
      && Fits(config, r)
      && match v
         case Barred => active != [] && r.requestId in preempted
         case PrefillFull => sequences == config.maxPrefillSequencesPerIteration
         case TooWide => |active| + budget + r.promptTokens > config.maxBatchTokens
         case NoBlocks => r.requestId in kv.sequences || OutOfBlocks(r)
         case _ => false
    }

    /** A candidate that is put aside is left behind for good reason. */
    lemma DeferralIsExcused(batch: seq<Active>, r: EngineRequest, v: Verdict, budget: nat, sequences: nat)
      requires Tree() && Batch() && WithinLimits(config, batch, active, budget, sequences)
      requires Deferral(r, v, budget, sequences) && Preceded(|batch|, active, r)
      ensures LeftBehind(config, |batch|, active, kv.sequences, preempted, r)
    {
      hide Consistent, TreeOk, Injective, BatchOk, AllHold, Fits, Preceded, PromptSum, BlocksForTokens, HeldBlocks;
      LimitsGive(config, batch, active, budget, sequences);
      var a := |active|;
      assert active[..a] == active && active[|batch|..a] == active[|batch|..];
      if v == NoBlocks {
        SequencesAreActiveIds(config, active, kv.sequences);
        if OutOfBlocks(r) {
          NothingPinned();
          FreeIsUnheld(config, kv.View(), active);
        }
      }
      if v != PrefillFull {
        assert Excused(config, |batch|, active, kv.sequences, preempted, r, a);
      }
    }

    lemma NothingPinned()
      requires Tree() && radix.view == map[]
      ensures kv.pins == map[]
    {
      hide Consistent, Shows, StampsOk, Backed, KeysDistinct;
    }

    /** Pops the next ready request and considers it. */
    method ScanNext(deferred: seq<EngineRequest>, prefillBudget: nat, prefillSequences: nat)
        returns (r: Option<EngineRequest>, v: Verdict)
      requires Tree() && Batch() && Books(Waiting() + multiset(Cores(deferred)))
      requires prefillBudget <= config.maxBatchTokens && (active == [] ==> preempted == {})
      modifies this, kv, radix, cache, pending
      ensures Tree() && Batch()
      ensures preempted == old(preempted) && submitted == old(submitted) && now >= old(now)
      ensures old(results) <= results && old(served) <= served
      ensures r.None? ==>
        && Books(Waiting() + multiset(Cores(deferred))) && kv.sequences == old(kv.sequences)
        && pending.items == old(pending.items) && active == old(active) && results == old(results) && now == old(now)
        && forall i | 0 <= i < |pending.items| :: pending.items[i].arrivalTime > now
      ensures r.Some? ==>
        && Books(Waiting() + multiset(Cores(if Consumes(v) then deferred else deferred + [r.value])))
        && |pending.items| == |old(pending.items)| - 1
        && |results| == |old(results)| + (if v == Rejected || v == Hit then 1 else 0)
        && |active| == |old(active)| + (if v == Admitted then 1 else 0) && active[..|old(active)|] == old(active)
        && Unbarred(old(pending.items), preempted)
           == Unbarred(pending.items, preempted) + (if r.value.requestId in preempted then 0 else 1)
        && (v == Admitted ==>
              && r.value.requestId !in preempted && active[|old(active)|].request == r.value
              && prefillSequences != config.maxPrefillSequencesPerIteration
              && |old(active)| + prefillBudget + r.value.promptTokens <= config.maxBatchTokens)
        && (!Consumes(v) ==> Deferral(r.value, v, prefillBudget, prefillSequences))
        && Extends(old(kv.sequences), kv.sequences)
        && r.value in old(pending.items) && (forall q | q in pending.items :: q in old(pending.items))
        && r.value.arrivalTime <= old(now)
        && (forall i | 0 <= i < |old(pending.items)| :: !Later(r.value, old(pending.items)[i]))
        && (old(active) == [] && prefillBudget == 0 && prefillSequences == 0 ==> Consumes(v))
    {
      hide Tree, Batch, Books, Later, Cores, Unbarred, Fits, Extends, OutOfBlocks, ConfigAccepted, ServedFirst;
      WiredUp();
      v := Barred;
      ghost var items, waiting := pending.items, Waiting() + multiset(Cores(deferred));
      ghost var at;
      r, at := pending.PopReady(now);
      if r.None? {
        return;
      }
      assert forall q | q in pending.items :: q in items;
      CoresRemove(items, at);
      UnbarredRemove(items, at, preempted);
      CoresAppend(deferred, [r.value]);
      OneCore(r.value);
      v := Consider(r.value, prefillBudget, prefillSequences, waiting);
      assert waiting - multiset{Core(r.value)} == Waiting() + multiset(Cores(deferred));
      assert waiting == Waiting() + multiset(Cores(deferred + [r.value]));
    }

    static lemma OneCore(r: EngineRequest)
      ensures multiset(Cores([r])) == multiset{Core(r)}
    {
      assert Cores([r]) == [Core(r)];
    }

    /** Puts deferred candidates back into the queue. */
    method Requeue(deferred: seq<EngineRequest>)
      requires Books(Waiting() + multiset(Cores(deferred)))
      modifies pending
      ensures pending.items == old(pending.items) + deferred
      ensures Books(Waiting())
    {
      hide Agrees, CacheSound, Conserved, WindowOk, ResultsOk, ConfigAccepted, Cores;
      CoresAppend(pending.items, deferred);
      ghost var items := pending.items;
      assert items + deferred[..0] == items;
      for i := 0 to |deferred|
        invariant pending.items == items + deferred[..i]
      {
        pending.Push(deferred[i]);
        assert items + deferred[..i] + [deferred[i]] == items + deferred[..i + 1];
      }
      assert deferred[..|deferred|] == deferred;
    }

    /**
     The admission scan. It moves requests from the queue into the batch or into the results; starting
     from an empty batch it does nothing only if nothing has arrived.
     */
    method AdmitReady() returns (any: bool)
      requires Tree() && Batch() && Books(Waiting()) && (active == [] ==> preempted == {})
      modifies this, kv, radix, cache, pending
      ensures Tree() && Batch() && Books(Waiting())
      ensures preempted == old(preempted) && submitted == old(submitted) && now >= old(now)
      ensures |pending.items| + |active| + |results| == |old(pending.items)| + |old(active)| + |old(results)|
      ensures |active| >= |old(active)| && active[..|old(active)|] == old(active)
      ensures old(results) <= results && old(served) <= served
      ensures Unbarred(pending.items, preempted) + (|active| - |old(active)|) <= Unbarred(old(pending.items), preempted)
      ensures any <==> |active| > |old(active)| || |results| > |old(results)|
      ensures old(active) == [] && !any ==>
        && pending.items == old(pending.items) && now == old(now)
        && forall i | 0 <= i < |pending.items| :: pending.items[i].arrivalTime > now
      ensures |old(active)| <= config.maxBatchSequences ==> |active| <= config.maxBatchSequences
      ensures WithinLimits(config, old(active), active, PromptSum(active[|old(active)|..]), |active| - |old(active)|)
      ensures Extends(old(kv.sequences), kv.sequences)
      ensures Settled(config, |old(active)|, active, kv.sequences, preempted, pending.items, now)
    {
      hide Tree, Batch, Books, Cores, Unbarred, WithinLimits, PromptSum, Settled, AllLeftBehind, Extends;
      ghost var batch := active;
      WiredUp();
      NothingDeferred(preempted);
      var deferred;
      any, deferred := Scan();
      LimitsGive(config, batch, active, PromptSum(active[|batch|..]), |active| - |batch|);
      UnbarredAppend(pending.items, deferred, preempted);
      SettledTogether(config, |batch|, active, kv.sequences, preempted, pending.items, deferred, now);
      Requeue(deferred);
    }

    lemma WiredUp()
      requires Tree() && Batch()
      ensures Wired() && config.kvBlockSizeTokens > 0 && BatchOk(config, active, kv.sequences)
    {
    }

    ghost function Count(deferred: seq<EngineRequest>): Tally
      reads this, pending
    {
      Tally(pending.items, deferred, |active|, |results|)
    }

    /** What holds all through a scan that started with `batch`, `start`, `results0` and `served0`. */
    ghost predicate Scanning(st: ScanState, batch: seq<Active>, start: Tally, results0: seq<EngineResult>,
                             served0: seq<EngineRequest>)
      reads this, pending, kv, radix, cache
    {
      && Tree() && Batch() && Books(Waiting() + multiset(Cores(st.deferred)))
      && TallyMoves(start, Count(st.deferred), preempted) && Grew(results0, served0, results, served)
      && (st.any <==> |active| + |results| > start.batch + start.results)
      && WithinLimits(config, batch, active, st.budget, st.sequences)
      && (active == [] ==> preempted == {})
    }

    /** New members precede what is still queued, and everything put aside was left behind for good reason. */
    ghost predicate Tidy(st: ScanState, n0: nat)
      requires Wired()
      reads this, pending, kv
    {
      Orderly(n0, active, pending.items) && AllLeftBehind(config, n0, active, kv.sequences, preempted, st.deferred)
    }

    /** The loop of AdmitReady; `deferred` is what it puts aside. */
    method Scan() returns (any: bool, deferred: seq<EngineRequest>)
      requires Tree() && Batch() && Books(Waiting()) && (active == [] ==> preempted == {})
      modifies this, kv, radix, cache, pending
      ensures preempted == old(preempted) && submitted == old(submitted) && now >= old(now)
      ensures |active| >= |old(active)|
      ensures Scanning(ScanState(deferred, PromptSum(active[|old(active)|..]), |active| - |old(active)|, any, false),
                       old(active), old(Count([])), old(results), old(served))
      ensures old(active) == [] && !any ==>
        && deferred == [] && pending.items == old(pending.items) && now == old(now)
        && forall i | 0 <= i < |pending.items| :: pending.items[i].arrivalTime > now
      ensures |old(active)| <= config.maxBatchSequences ==> |active| <= config.maxBatchSequences
      ensures Extends(old(kv.sequences), kv.sequences)
      ensures AllLeftBehind(config, |old(active)|, active, kv.sequences, preempted, deferred)
      ensures Settled(config, |old(active)|, active, kv.sequences, preempted, pending.items, now)
    {
      hide Scanning, PromptSum, Cores, Tree, Batch, Books, TallyMoves, Grew, WithinLimits, Unbarred, Tidy, Settled,
           AllLeftBehind, Extends;
      var st := ScanState([], 0, 0, false, true);
      var scanLimit := |pending.items|;
      ghost var batch, start, results0, served0 := active, Count([]), results, served;
      ScanStarts();
      var scanned := 0;
      while scanned < scanLimit && |active| < config.maxBatchSequences
        invariant Scanning(st, batch, start, results0, served0) && Tidy(st, |batch|)
        invariant Extends(old(kv.sequences), kv.sequences) && |pending.items| == scanLimit - scanned
        invariant preempted == old(preempted) && submitted == old(submitted) && now >= old(now)
        invariant scanned == 0 ==>
          && st == ScanState([], 0, 0, false, true)
          && pending.items == old(pending.items) && active == batch && now == old(now)
        invariant batch == [] && scanned > 0 ==> st.any
        invariant |batch| <= config.maxBatchSequences ==> |active| <= config.maxBatchSequences
      {
        ghost var sequences := kv.sequences;
        st := ScanOne(st, batch, start, results0, served0);
        ExtendsFurther(old(kv.sequences), sequences, kv.sequences);
        if !st.more {
          break;
        }
        scanned := scanned + 1;
      }
      ScanSettles(st, |batch|);
      ScanEnds(st, batch, start, results0, served0);
      return st.any, st.deferred;
    }

    static lemma ExtendsFurther(a: map<string, seq<BlockId>>, b: map<string, seq<BlockId>>, c: map<string, seq<BlockId>>)
      requires Extends(a, b) && Extends(b, c)
      ensures Extends(a, c)
    {
    }

    /** The scan has ended: nothing more has arrived, or a limit is reached. */
    lemma ScanSettles(st: ScanState, n0: nat)
      requires Wired() && Tidy(st, n0)
      requires (forall i | 0 <= i < |pending.items| :: pending.items[i].arrivalTime > now)
               || |active| >= config.maxBatchSequences || |active| - n0 == config.maxPrefillSequencesPerIteration
      ensures AllLeftBehind(config, n0, active, kv.sequences, preempted, st.deferred)
      ensures Settled(config, n0, active, kv.sequences, preempted, pending.items, now)
    {
      hide HasExcuse, Preceded;
    }

    lemma ScanEnds(st: ScanState, batch: seq<Active>, start: Tally, results0: seq<EngineResult>, served0: seq<EngineRequest>)
      requires Scanning(st, batch, start, results0, served0)
      ensures |batch| <= |active|
      ensures Scanning(ScanState(st.deferred, PromptSum(active[|batch|..]), |active| - |batch|, st.any, false), batch, start,
                       results0, served0)
    {
      hide Tree, Batch, Books, TallyMoves, Grew, WithinLimits, Cores;
      LimitsGive(config, batch, active, st.budget, st.sequences);
    }

    lemma ScanStarts()
      requires Tree() && Batch() && Books(Waiting()) && (active == [] ==> preempted == {})
      ensures config.maxBatchSequences > 0
      ensures Scanning(ScanState([], 0, 0, false, true), active, Count([]), results, served)
      ensures Wired() && Tidy(ScanState([], 0, 0, false, true), |active|) && Extends(kv.sequences, kv.sequences)
    {
      hide Consistent, TreeOk, Injective, Batch, Books, WithinLimits;
      assert Waiting() + multiset(Cores([])) == Waiting();
      LimitsStart(config, active);
    }

    /** One turn of the scan: the next ready request, if any, is considered and put aside or consumed. */
    method ScanOne(st: ScanState, ghost batch: seq<Active>, ghost start: Tally, ghost results0: seq<EngineResult>,
                   ghost served0: seq<EngineRequest>) returns (st': ScanState)
      requires Scanning(st, batch, start, results0, served0) && Wired() && Tidy(st, |batch|)
      requires |active| < config.maxBatchSequences
      modifies this, kv, radix, cache, pending
      ensures Scanning(st', batch, start, results0, served0) && Tidy(st', |batch|)
      ensures Extends(old(kv.sequences), kv.sequences)
      ensures st'.more ==> |pending.items| == |old(pending.items)| - 1
      ensures !st'.more ==>
        || (forall i | 0 <= i < |pending.items| :: pending.items[i].arrivalTime > now)
        || |active| - |batch| == config.maxPrefillSequencesPerIteration
      ensures preempted == old(preempted) && submitted == old(submitted) && now >= old(now)
      ensures |active| <= |old(active)| + 1
      ensures st.any ==> st'.any
      ensures old(active) == [] && st.budget == 0 && st.sequences == 0 && !st'.any ==>
        && !st'.more && st'.deferred == st.deferred && pending.items == old(pending.items)
        && now == old(now) && forall i | 0 <= i < |pending.items| :: pending.items[i].arrivalTime > now
    {
      hide Tree, Batch, Books, TallyMoves, Grew, Cores, Unbarred, PromptSum, Later, ConfigAccepted, WithinLimits,
           Orderly, AllLeftBehind, Extends, Fits, OutOfBlocks, BatchOk;
      ghost var before, middle, results1, served1 := active, Count(st.deferred), results, served;
      ghost var sequences0 := kv.sequences;
      WiredUp();
      LimitsGive(config, batch, active, st.budget, st.sequences);
      TallyOrder(start, middle, preempted);
      var r, v := ScanNext(st.deferred, st.budget, st.sequences);
      st' := st.(more := false);
      if r.None? {
        ScanSame(middle, results1, served1);
        TidySame(st, st', |batch|, sequences0);
      } else {
        assert v != Admitted ==> active == before;
        st' := st.(any := st.any || Consumes(v), more := v != PrefillFull);
        if v == Admitted {
          LimitsStep(config, batch, before, st.budget, st.sequences, active);
          st' := st'.(budget := st.budget + r.value.promptTokens, sequences := st.sequences + 1);
        } else if !Consumes(v) {
          st' := st'.(deferred := st.deferred + [r.value]);
        }
        ScanMoves(middle, results1, served1, r.value, v, st'.deferred);
        TidyMoves(st, st', batch, before, middle.items, sequences0, r.value, v);
      }
      TallyTransitive(start, middle, Count(st'.deferred), preempted);
      GrewTransitive(results0, served0, results1, served1, results, served);
    }

    lemma TidySame(st: ScanState, st': ScanState, n0: nat, sequences0: map<string, seq<BlockId>>)
      requires Wired() && Tidy(st, n0) && st'.deferred == st.deferred && sequences0 == kv.sequences
      ensures Tidy(st', n0) && Extends(sequences0, kv.sequences)
    {
    }

    /** One turn keeps the scan tidy. */
    lemma TidyMoves(st: ScanState, st': ScanState, batch: seq<Active>, before: seq<Active>, items0: seq<EngineRequest>,
                    sequences0: map<string, seq<BlockId>>, r: EngineRequest, v: Verdict)
      requires Tree() && Batch() && BatchOk(config, before, sequences0) && Extends(sequences0, kv.sequences)
      requires Orderly(|batch|, before, items0)
      requires AllLeftBehind(config, |batch|, before, sequences0, preempted, st.deferred)
      requires |before| < config.maxBatchSequences && WithinLimits(config, batch, before, st.budget, st.sequences)
      requires |active| == |before| + (if v == Admitted then 1 else 0) && active[..|before|] == before
      requires v == Admitted ==> active[|before|].request == r && st.sequences != config.maxPrefillSequencesPerIteration
      requires r in items0 && (forall q | q in pending.items :: q in items0)
      requires forall i | 0 <= i < |items0| :: !Later(r, items0[i])
      requires st'.deferred == if Consumes(v) then st.deferred else st.deferred + [r]
      requires !Consumes(v) ==> Deferral(r, v, st.budget, st.sequences)
      ensures Tidy(st', |batch|)
    {
      hide Consistent, TreeOk, Injective, Later, LeftBehind, PromptSum, Extends, AllHold, Deferral, ImpossibleReason;
      LimitsGive(config, batch, before, st.budget, st.sequences);
      AdmitOrderly(|batch|, before, items0, active, pending.items);
      forall i | 0 <= i < |before| ensures before[i].request.requestId in sequences0 {
        assert ActiveSound(config, before[i], sequences0);
      }
      assert v != Admitted ==> active == before;
      LeftBehindStays(config, |batch|, before, sequences0, preempted, st.deferred, active, kv.sequences);
      if !Consumes(v) {
        assert Preceded(|batch|, active, r) by {
          var k :| 0 <= k < |items0| && items0[k] == r;
          assert Preceded(|batch|, before, items0[k]);
        }
        DeferralIsExcused(batch, r, v, st.budget, st.sequences);
      }
    }

    lemma ScanSame(middle: Tally, results1: seq<EngineResult>, served1: seq<EngineRequest>)
      requires middle.items == pending.items && middle.batch == |active| && middle.results == |results|
      requires results == results1 && served1 <= served
      ensures TallyMoves(middle, Count(middle.deferred), preempted) && Grew(results1, served1, results, served)
    {
    }

    lemma ScanMoves(middle: Tally, results1: seq<EngineResult>, served1: seq<EngineRequest>, r: EngineRequest, v: Verdict,
                    deferred: seq<EngineRequest>)
      requires results1 <= results && served1 <= served && |pending.items| == |middle.items| - 1
      requires |results| == middle.results + (if v == Rejected || v == Hit then 1 else 0)
      requires |active| == middle.batch + (if v == Admitted then 1 else 0)
      requires Unbarred(middle.items, preempted)
        == Unbarred(pending.items, preempted) + (if r.requestId in preempted then 0 else 1)
      requires v == Admitted ==> r.requestId !in preempted
      requires deferred == if Consumes(v) then middle.deferred else middle.deferred + [r]
      ensures TallyMoves(middle, Count(deferred), preempted) && Grew(results1, served1, results, served)
    {
      hide Unbarred;
      UnbarredAppend(middle.deferred, [r], preempted);
      UnbarredOne(r, preempted);
    }

    static lemma NothingDeferred(preempted: set<string>)
      ensures multiset(Cores([])) == multiset{} && Unbarred([], preempted) == 0
    {
    }

    /** Gives a sequence's blocks back. */
    method Release(id: string)
      requires Tree() && id in kv.sequences
      modifies kv
      ensures Tree() && kv.sequences == old(kv.sequences) - {id}
    {
      hide Consistent, TreeOk, Injective, ConfigAccepted, Drop, Released;
      var freed := kv.Free(id);
    }

    static lemma OneMore(c: EngineConfig, results: seq<EngineResult>, served: seq<EngineRequest>, result: EngineResult,
                         r: EngineRequest)
      requires c.kvBlockSizeTokens > 0 && ResultsOk(c, results, served) && ResultFor(c, result, r)
      ensures ResultsOk(c, results + [result], served + [r])
    {
    }

    /** Books the result of active sequence `i` and takes it out of the batch. */
    method Record(i: nat, result: EngineResult, ghost waiting: multiset<EngineRequest>)
      requires Books(waiting) && i < |active| && ResultFor(config, result, Core(active[i].request))
      modifies this`results, this`served, this`window, this`active
      ensures Books(waiting)
      ensures active == RemoveAt(old(active), i) && results == old(results) + [result]
      ensures old(served) <= served
    {
      hide Agrees, CacheSound, Conserved, WindowOk, ResultFor, ImpossibleReason, RemoveAt, ResultsOk;
      ghost var r := Core(active[i].request);
      BooksFinish(config, submitted, window, waiting, active, served, preempted, i);
      OneMore(config, results, served, result, r);
      results, served := results + [result], served + [r];
      window := window.(finished := window.finished + multiset{r});
      active := RemoveAt(active, i);
    }

    /** Completes one finished sequence: its result is its own output, and its blocks are released. */
    method FinishAt(i: nat)
      requires Tree() && Batch() && Books(Waiting()) && i < |active|
      modifies this, kv, cache
      ensures Tree() && Batch() && Books(Waiting())
      ensures preempted == old(preempted) && submitted == old(submitted) && now == old(now)
      ensures active == RemoveAt(old(active), i) && old(served) <= served
      ensures results == old(results) + [Report(old(active)[i], now)]
      ensures kv.sequences == old(kv.sequences) - {old(active)[i].request.requestId}
      ensures var r := old(active)[i].request;
        && cache.stack == Front(old(cache.stack), ResultKey(r))
        && cache.lastPut == old(cache.lastPut)[ResultKey(r) := SimulatedOutput(r)]
    {
      hide Agrees, CacheSound, Conserved, WindowOk, ResultsOk, ResultFor, Consistent, TreeOk, Injective, BatchOk, AllHold,
           Cores, ConfigAccepted, ImpossibleReason, SimulatedOutput, RemoveAt, ResultKey, Front;
      var a := active[i];
      BatchFacts(i);
      CoreLooksAlike(config, a.request);
      var output := SimulatedOutput(a.request);
      var result := EngineResult(a.request.requestId, output, now, if a.generatedTokens == 0 then now else a.firstTokenAt,
                                 false, a.prefixCacheHit, true, "");
      ReportAnswers(config, result, Core(a.request));
      BatchRemove(config, active, kv.sequences, i);
      HoldsAfterRemove(config.kvBlockSizeTokens, active, kv.sequences, i, 0);
      StoreOutput(a.request);
      Release(a.request.requestId);
      Record(i, result, Waiting());
    }

    lemma BatchFacts(i: nat)
      requires Batch() && i < |active|
      ensures active[i].request.requestId in kv.sequences && ImpossibleReason(config, active[i].request).None?
      ensures active[i].generatedTokens <= active[i].request.maxOutputTokens && active[i].state == Decode
      ensures config.kvBlockSizeTokens > 0
    {
      assert ActiveSound(config, active[i], kv.sequences);
    }

    /** Puts a finished output into the result cache; every entry stays right for its key. */
    method StoreOutput(request: EngineRequest)
      requires cache.Valid() && CacheSound(cache.entries)
      modifies cache
      ensures cache.Valid() && CacheSound(cache.entries)
      ensures cache.stack == Front(old(cache.stack), ResultKey(request))
      ensures cache.lastPut == old(cache.lastPut)[ResultKey(request) := SimulatedOutput(request)]
    {
      hide Agrees, ResultKey, SimulatedOutput, Faithful, Front;
      OutputIsFaithful(request);
      cache.Put(ResultKey(request), SimulatedOutput(request));
    }

    /** Exactly the members with all their tokens leave the batch, each with its result; the others keep their order. */
    method CompleteFinished()
      requires Tree() && Batch() && Books(Waiting())
      modifies this, kv, cache
      ensures Tree() && Batch() && Books(Waiting())
      ensures preempted == old(preempted) && submitted == old(submitted) && now == old(now)
      ensures active == Surviving(old(active)) && Unfinished(active) && Extends(kv.sequences, old(kv.sequences))
      ensures results == old(results) + Reports(old(active), now) && old(served) <= served
      ensures cache.stack == Touches(old(cache.stack), old(active))
      ensures cache.lastPut == Puts(old(cache.lastPut), old(active))
      ensures |active| + |results| == |old(active)| + |old(results)| && |active| <= |old(active)|
      ensures |active| == |old(active)| || Unfinished(old(active)) ==> active == old(active)
    {
      hide Tree, Batch, Books, Cores, Surviving, RemoveAt, Reports, Report, Touches, Puts, Front, ResultKey, SimulatedOutput;
      ghost var all, k := active, 0;
      NothingSurvives(all);
      NothingFinished(all, now, cache.stack, cache.lastPut);
      var index := 0;
      while index < |active|
        invariant 0 <= k <= |all| && index == |Surviving(all[..k])| && active == Surviving(all[..k]) + all[k..]
        invariant Tree() && Batch() && Books(Waiting())
        invariant preempted == old(preempted) && submitted == old(submitted) && now == old(now)
        invariant results == old(results) + Reports(all[..k], now) && old(served) <= served
        invariant |active| + |results| == |all| + |old(results)| && Extends(kv.sequences, old(kv.sequences))
        invariant cache.stack == Touches(old(cache.stack), all[..k])
        invariant cache.lastPut == Puts(old(cache.lastPut), all[..k])
        decreases |active| - index
      {
        SurvivingStep(all, k);
        FinishedStep(all, k, now, old(cache.stack), old(cache.lastPut));
        if active[index].generatedTokens < active[index].request.maxOutputTokens {
          index := index + 1;
        } else {
          FinishAt(index);
        }
        k := k + 1;
      }
      assert all[..|all|] == all;
      SurvivingFacts(all);
    }

    static lemma NothingSurvives(all: seq<Active>)
      ensures Surviving(all[..0]) == [] && all == Surviving(all[..0]) + all[0..]
    {
    }

    /** The documented victim policy yields the unique least element of that order. */
    method SelectVictim() returns (victim: nat)
      requires active != []
      ensures IsVictim(active, victim)
    {
      hide TokensLeft;
      victim := 0;
      for index := 1 to |active|
        invariant 0 <= victim < index <= |active|
        invariant forall j | 0 <= j < index && j != victim :: VictimBefore(active, victim, j)
      {
        var candidate, selected := active[index], active[victim];
        if candidate.request.priority < selected.request.priority
           || (candidate.request.priority == selected.request.priority && TokensLeft(candidate) > TokensLeft(selected)) {
          forall j | 0 <= j < index ensures VictimBefore(active, index, j) {
            assert j == victim || VictimBefore(active, victim, j);
          }
          victim := index;
        } else {
          assert VictimBefore(active, victim, index);
        }
      }
    }

    /** While blocks for the next token are added, the batch stays consistent with the allocator. */
    ghost predicate Extending(n: nat)
      reads this, kv
    {
      && Wired()
      && BatchOk(config, active, kv.sequences)
      && Growing(config.kvBlockSizeTokens, active, kv.sequences, n)
      && Unfinished(active)
    }

    /** Books a preempted sequence back into the queue. */
    method Bounce(i: nat)
      requires Books(Waiting()) && i < |active| && ImpossibleReason(config, active[i].request).None?
      modifies this`active, this`preempted, this`window, pending
      ensures Books(Waiting())
      ensures active == RemoveAt(old(active), i)
      ensures preempted == old(preempted) + {old(active)[i].request.requestId}
      ensures pending.items == old(pending.items) + [old(active)[i].request.(arrivalTime := now)]
    {
      hide Agrees, CacheSound, Conserved, WindowOk, ResultsOk, ImpossibleReason, Cores, RemoveAt;
      var request := active[i].request.(arrivalTime := now);
      BooksPreempt(config, submitted, window, Waiting(), active, served, preempted, i);
      CoresAppend(pending.items, [request]);
      OneCore(request);
      preempted := preempted + {request.requestId};
      window := window.(bounced := window.bounced + multiset{Core(request)});
      pending.Push(request);
      active := RemoveAt(active, i);
    }

    /** A preempted sequence loses its blocks and its progress, and waits for the batch to drain. */
    method Preempt(i: nat, ghost n: nat)
      requires Tree() && Extending(n) && Books(Waiting()) && i < |active|
      modifies this, kv, pending
      ensures Tree() && Extending(0) && Books(Waiting())
      ensures kv.sequences == old(kv.sequences) - {old(active)[i].request.requestId}
      ensures submitted == old(submitted) && now == old(now) && results == old(results) && served == old(served)
      ensures active == RemoveAt(old(active), i)
      ensures pending.items == old(pending.items) + [old(active)[i].request.(arrivalTime := now)]
      ensures preempted == old(preempted) + {old(active)[i].request.requestId}
      ensures Unbarred(pending.items, preempted) <= Unbarred(old(pending.items), old(preempted))
    {
      hide Agrees, CacheSound, Conserved, WindowOk, ResultsOk, Consistent, TreeOk, Injective, Growing, Cores,
           ConfigAccepted, ImpossibleReason, Unbarred;
      ghost var id, items := active[i].request.requestId, pending.items;
      assert ActiveSound(config, active[i], kv.sequences);
      BatchRemove(config, active, kv.sequences, i);
      GrowingAfterRemove(config.kvBlockSizeTokens, active, kv.sequences, n, i);
      UnbarredAppend(items, [active[i].request.(arrivalTime := now)], preempted + {id});
      UnbarredOne(active[i].request.(arrivalTime := now), preempted + {id});
      UnbarredBounds(items, preempted, preempted + {id});
      Release(active[i].request.requestId);
      Bounce(i);
    }

    /** With the tree empty, the only active sequence owns every block that is not free. */
    lemma LastSequenceHasRoom()
      requires Tree() && radix.view == map[] && Extending(0) && |active| == 1
      ensures active[0].request.requestId in kv.sequences
      ensures BlocksForTokens(Tokens(active[0]) + 1, config.kvBlockSizeTokens)
        <= |kv.freeList| + |kv.sequences[active[0].request.requestId]|
    {
      hide Consistent, Shows, StampsOk, Backed, KeysDistinct, Growing, BlocksForTokens;
      var id := active[0].request.requestId;
      assert ActiveSound(config, active[0], kv.sequences);
      NextTokenFits(config, active[0]);
      assert kv.pins == map[];
      assert kv.sequences.Keys == {id} by {
        assert |kv.sequences.Keys - {id}| == 0;
      }
      SoleHolder(kv.View(), id);
    }

    /** Appends blocks to a sequence, evicting prefix nodes until they suffice or none is left. */
    method AppendEvicting(id: string, additional: nat) returns (status: AllocationStatus)
      requires Tree() && id in kv.sequences
      modifies kv, radix
      ensures Tree()
      ensures status == Allocated || status == InsufficientBlocks
      ensures status == InsufficientBlocks ==>
        kv.sequences == old(kv.sequences) && radix.view == map[] && |kv.freeList| < additional
      ensures |old(kv.freeList)| >= additional ==> radix.view == old(radix.view)
      ensures status == Allocated ==>
        && AppendsFresh(old(kv.sequences), kv.sequences, id)
        && |kv.sequences[id]| == |old(kv.sequences)[id]| + additional
    {
      hide Consistent, TreeOk, Injective, ConfigAccepted, Bump, AppendsFresh;
      if AppendVerdict(kv.View(), id, additional) == Allocated {
        AppendIsFresh(kv.View(), id, additional);
      }
      status := kv.AppendBlocks(id, additional);
      while status == InsufficientBlocks
        invariant Tree()
        invariant status == Allocated || status == InsufficientBlocks
        invariant status == InsufficientBlocks ==> kv.sequences == old(kv.sequences) && |kv.freeList| < additional
        invariant |old(kv.freeList)| >= additional ==> status == Allocated && radix.view == old(radix.view)
        invariant status == Allocated ==>
          && id in kv.sequences && AppendsFresh(old(kv.sequences), kv.sequences, id)
          && |kv.sequences[id]| == |old(kv.sequences)[id]| + additional
        decreases radix.nodeCount, if status == InsufficientBlocks then 1 else 0
      {
        var evicted := Evict();
        if !evicted {
          return;
        }
        if AppendVerdict(kv.View(), id, additional) == Allocated {
          AppendIsFresh(kv.View(), id, additional);
        }
        status := kv.AppendBlocks(id, additional);
      }
    }

    /**
     Makes room for the next token of sequence `index`. When it fails, the tree is empty and at least
     one other sequence holds blocks.
     */
    method GrowAt(index: nat, ghost before: map<string, seq<BlockId>>) returns (grown: bool)
      requires Tree() && Extending(index) && index < |active|
      requires Grown(config.kvBlockSizeTokens, active, before, kv.sequences)
      modifies kv, radix
      ensures Tree() && Grown(config.kvBlockSizeTokens, active, before, kv.sequences)
      ensures grown ==> Extending(index + 1)
      ensures !grown ==> Extending(index) && |active| > 1
      ensures !grown ==>
        && active[index].request.requestId in kv.sequences && radix.view == map[]
        && |kv.freeList| + |kv.sequences[active[index].request.requestId]|
           < BlocksForTokens(Tokens(active[index]) + 1, config.kvBlockSizeTokens)
    {
      hide Consistent, TreeOk, Injective, Growing, BlocksForTokens, ImpossibleReason, Grown;
      var a := active[index];
      assert ActiveSound(config, a, kv.sequences);
      NextTokenFits(config, a);
      ghost var sequences := kv.sequences;
      var needed := BlocksForTokens(a.request.promptTokens + a.generatedTokens + 1, config.kvBlockSizeTokens);
      var current := |kv.sequences[a.request.requestId]|;
      if needed <= current {
        AlreadyGrown(config, active, kv.sequences, index);
        return true;
      }
      var status := AppendEvicting(a.request.requestId, needed - current);
      if status == Allocated {
        GrowOne(config, active, sequences, index, kv.sequences[a.request.requestId]);
        GrownStep(config.kvBlockSizeTokens, active, before, sequences, kv.sequences, index);
        return true;
      }
      if |active| == 1 {
        StartsGrowing(active, kv.sequences, index);
        LastSequenceHasRoom();
      }
      return false;
    }

    lemma StartsGrowing(active: seq<Active>, sequences: map<string, seq<BlockId>>, n: nat)
      requires Wired() && Growing(config.kvBlockSizeTokens, active, sequences, n)
      ensures Growing(config.kvBlockSizeTokens, active, sequences, 0)
    {
    }

    /**
     Gives every surviving sequence the blocks for one more token. Started on a non-empty batch it
     always succeeds: the last sequence is never preempted.
     */
    method PrepareDecodeBlocks() returns (ok: bool)
      requires Tree() && Batch() && Books(Waiting()) && Unfinished(active) && active != []
      modifies this, kv, radix, pending
      ensures Tree() && Books(Waiting())
      ensures ok && active != [] && Extending(|active|)
      ensures submitted == old(submitted) && now == old(now) && results == old(results) && served == old(served)
      ensures active == Survivors(config, old(active), old(kv.sequences))
      ensures pending.items == old(pending.items) + Bounced(Victims(config, old(active), old(kv.sequences)), now)
      ensures |pending.items| + |active| == |old(pending.items)| + |old(active)|
      ensures multiset(active) <= multiset(old(active)) && |active| <= |old(active)|
      ensures Unbarred(pending.items, preempted) <= Unbarred(old(pending.items), old(preempted))
      ensures Remaining(active) <= Remaining(old(active))
    {
      hide Tree, Books, Batch, Extending, Unbarred, Remaining, Unfinished, Grown, Survivors, Victims, Bounced, Demand,
           VictimOf, IsVictim, RemoveAt, Cores, Owes;
      WiredUp();
      BatchCanGrow();
      ghost var before, total := kv.sequences, pending.items + Bounced(Victims(config, active, kv.sequences), now);
      GrowthStarts();
      OwesAll(before, total);
      SurvivorsKeep(config, active, before);
      var index := 0;
      while index < |active|
        invariant 0 <= index <= |active| && active != []
        invariant Tree() && Extending(index) && Books(Waiting())
        invariant Grown(config.kvBlockSizeTokens, active, before, kv.sequences) && Owes(before, total)
        invariant Survivors(config, active, before) == Survivors(config, old(active), before)
        invariant submitted == old(submitted) && now == old(now) && results == old(results) && served == old(served)
        invariant Unbarred(pending.items, preempted) <= Unbarred(old(pending.items), old(preempted))
        decreases |active|, |active| - index
      {
        var grown := GrowAt(index, before);
        if grown {
          index := index + 1;
        } else {
          PreemptNext(index, before, total);
          index := 0;
        }
      }
      NoMoreVictims(before);
      OwesNothing(before, total);
      return active != [];
    }

    /** Member `index` cannot grow, so the next victim goes. */
    method PreemptNext(ghost index: nat, ghost before: map<string, seq<BlockId>>, ghost total: seq<EngineRequest>)
      requires Tree() && Extending(index) && Books(Waiting()) && index < |active| && |active| > 1
      requires Grown(config.kvBlockSizeTokens, active, before, kv.sequences) && Owes(before, total)
      requires active[index].request.requestId in kv.sequences && radix.view == map[]
      requires |kv.freeList| + |kv.sequences[active[index].request.requestId]|
               < BlocksForTokens(Tokens(active[index]) + 1, config.kvBlockSizeTokens)
      modifies this, kv, pending
      ensures Tree() && Extending(0) && Books(Waiting()) && |active| == |old(active)| - 1
      ensures Grown(config.kvBlockSizeTokens, active, before, kv.sequences) && Owes(before, total)
      ensures Survivors(config, active, before) == Survivors(config, old(active), before)
      ensures submitted == old(submitted) && now == old(now) && results == old(results) && served == old(served)
      ensures Unbarred(pending.items, preempted) <= Unbarred(old(pending.items), old(preempted))
    {
      hide Tree, Books, Extending, Unbarred, Unfinished, Grown, Survivors, Victims, Bounced, VictimOf, IsVictim, RemoveAt,
           Cores, BlocksForTokens;
      var victim := SelectVictim();
      OneVictim(before, index, victim);
      ghost var items, batch := pending.items, active;
      Preempt(victim, index);
      OwesLess(before, total, items, batch, victim);
    }

    /** Once the victims still to come are back, the queue is `total`. */
    ghost predicate Owes(before: map<string, seq<BlockId>>, total: seq<EngineRequest>)
      requires config.kvBlockSizeTokens > 0
      reads this, pending
    {
      pending.items + Bounced(Victims(config, active, before), now) == total
    }

    lemma OwesAll(before: map<string, seq<BlockId>>, total: seq<EngineRequest>)
      requires config.kvBlockSizeTokens > 0 && total == pending.items + Bounced(Victims(config, active, before), now)
      ensures Owes(before, total)
    {
    }

    lemma OwesLess(before: map<string, seq<BlockId>>, total: seq<EngineRequest>, items: seq<EngineRequest>,
                   batch: seq<Active>, victim: nat)
      requires config.kvBlockSizeTokens > 0 && victim < |batch| && active == RemoveAt(batch, victim)
      requires items + Bounced(Victims(config, batch, before), now) == total
      requires pending.items == items + [batch[victim].request.(arrivalTime := now)]
      requires Bounced(Victims(config, batch, before), now)
        == [batch[victim].request.(arrivalTime := now)] + Bounced(Victims(config, RemoveAt(batch, victim), before), now)
      ensures Owes(before, total)
    {
      hide Bounced, Victims, RemoveAt;
      ghost var x, rest := [batch[victim].request.(arrivalTime := now)], Bounced(Victims(config, active, before), now);
      assert items + (x + rest) == (items + x) + rest;
    }

    lemma OwesNothing(before: map<string, seq<BlockId>>, total: seq<EngineRequest>)
      requires config.kvBlockSizeTokens > 0 && Owes(before, total)
      requires Bounced(Victims(config, active, before), now) == []
      ensures pending.items == total
    {
    }

    lemma GrowthStarts()
      requires Tree() && Batch()
      ensures Grown(config.kvBlockSizeTokens, active, kv.sequences, kv.sequences)
    {
      hide TreeOk, Injective, CountsOk, FreeOk, AllHold, Grown, ImpossibleReason;
      forall i | 0 <= i < |active| ensures active[i].request.requestId in kv.sequences {
        assert ActiveSound(config, active[i], kv.sequences);
      }
      GrownStart(config.kvBlockSizeTokens, active, kv.sequences);
    }

    /** A member could not grow: the batch demands too much, so its victim is the next to go. */
    lemma OneVictim(before: map<string, seq<BlockId>>, index: nat, victim: nat)
      requires Tree() && Extending(index) && index < |active| && radix.view == map[]
      requires Grown(config.kvBlockSizeTokens, active, before, kv.sequences) && IsVictim(active, victim)
      requires active[index].request.requestId in kv.sequences
      requires |kv.freeList| + |kv.sequences[active[index].request.requestId]|
               < BlocksForTokens(Tokens(active[index]) + 1, config.kvBlockSizeTokens)
      ensures victim < |active| && config.kvBlockSizeTokens > 0
      ensures Survivors(config, active, before) == Survivors(config, RemoveAt(active, victim), before)
      ensures Bounced(Victims(config, active, before), now)
        == [active[victim].request.(arrivalTime := now)] + Bounced(Victims(config, RemoveAt(active, victim), before), now)
      ensures Grown(config.kvBlockSizeTokens, RemoveAt(active, victim), before,
                    kv.sequences - {active[victim].request.requestId})
    {
      hide Consistent, TreeOk, Injective, Growing, Grown, BlocksForTokens, Demand, RemoveAt, IsVictim, ImpossibleReason;
      NothingPinned();
      ShortOfBlocks(config, kv.View(), active, index);
      DemandStays(config.kvBlockSizeTokens, active, before, kv.sequences);
      VictimUnique(active, victim, VictimOf(active));
      VictimInRange(active, victim);
      GrownRemove(config.kvBlockSizeTokens, active, before, kv.sequences, victim);
    }

    static lemma VictimInRange(active: seq<Active>, victim: nat)
      requires IsVictim(active, victim)
      ensures victim < |active|
    {
    }

    lemma NoMoreVictims(before: map<string, seq<BlockId>>)
      requires Tree() && Extending(|active|) && Grown(config.kvBlockSizeTokens, active, before, kv.sequences)
      ensures Survivors(config, active, before) == active && Bounced(Victims(config, active, before), now) == []
    {
      hide Consistent, TreeOk, Injective, Growing, Grown, BatchOk, Demand;
      GrownBatchFits(config, kv.View(), active);
      DemandStays(config.kvBlockSizeTokens, active, before, kv.sequences);
    }

    lemma BatchCanGrow()
      requires Batch() && Unfinished(active)
      ensures Extending(0)
    {
      hide BatchOk;
      assert forall i | 0 <= i < |active| :: Holds(config.kvBlockSizeTokens, active[i], kv.sequences, 0);
    }

    /** One decode step: time passes and every active sequence gains exactly one token. */
    method DecodeStep()
      requires Tree() && Extending(|active|) && Books(Waiting()) && |active| <= SIZE_MAX
      modifies this`now, this`active
      ensures Tree() && Batch() && Books(Waiting()) && now >= old(now)
      ensures active == SteppedAll(old(active), now)
      ensures Remaining(active) == Remaining(old(active)) - |active|
      ensures Elapsed(CostModel.SaturatingCost(config.costModel.decodeFixed, config.costModel.decodePerSequence, |active|),
                      old(now), now)
    {
      hide Agrees, CacheSound, ResultsOk, Consistent, TreeOk, Injective, BatchOk, Growing, AllHold, Cores,
           ImpossibleReason, Remaining, Unfinished, Stepped;
      var decodeCost := cost.DecodeStep(|active|);
      now := now + decodeCost as int;
      BatchStep(config, active, kv.sequences, now);
      RemainingStep(active, now);
      active := SteppedAll(active, now);
    }

    // -------------------------------------------------------------- whole iterations

    /** Holds between iterations. */
    ghost predicate Valid()
      reads this, kv, radix, cache, pending
    {
      Tree() && Batch() && Books(Waiting()) && Unfinished(active) && |active| <= config.maxBatchSequences
    }

    /** Requests not answered yet. */
    ghost function Load(): nat
      reads this, pending
    {
      |pending.items| + |active|
    }

    /** Requests that could still join before the batch drains; with an empty batch, all of them. */
    ghost function Joinable(): nat
      reads this, pending
    {
      if active == [] then |pending.items| else Unbarred(pending.items, preempted)
    }

    ghost function Left(): nat
      reads this
    {
      Remaining(active)
    }

    static ghost predicate Descends(l0: nat, j0: nat, r0: nat, l1: nat, j1: nat, r1: nat) {
      l1 < l0 || (l1 == l0 && (j1 < j0 || (j1 == j0 && r1 < r0)))
    }

    /** Forgets the preemptions once the batch has drained. */
    method Drain()
      requires Valid()
      modifies this`preempted, this`window
      ensures Valid() && (active == [] ==> preempted == {})
      ensures active != [] ==> preempted == old(preempted)
    {
      hide Agrees, CacheSound, Conserved, WindowOk, ResultsOk, Consistent, TreeOk, Injective, BatchOk, AllHold, Cores;
      if active == [] {
        BooksDrain(config, window, Waiting(), served, preempted);
        preempted := {};
        window := Window(multiset{}, multiset{}, multiset{});
      }
    }

    /** The first half of an iteration: admissions, and completion of requests that want no token. */
    method AdmitPhase() returns (progressed: bool, ghost it: Iteration)
      requires Valid()
      modifies this, kv, radix, cache, pending
      ensures Valid() && submitted == old(submitted) && now >= old(now)
      ensures old(results) <= results && old(served) <= served
      ensures Load() <= old(Load())
      ensures Load() == old(Load()) ==>
        && |active| >= |old(active)|
        && Unbarred(pending.items, preempted) + (|active| - |old(active)|) <= old(Joinable())
        && (progressed <==> |active| > |old(active)|)
        && (!progressed ==> active == old(active))
      ensures !progressed ==> Load() == old(Load())
      ensures old(active) == [] && !progressed ==>
        && pending.items == old(pending.items) && now == old(now)
        && forall i | 0 <= i < |pending.items| :: pending.items[i].arrivalTime > now
      ensures it == Iteration(if old(active) == [] then {} else old(preempted), it.joined, it.sequences, pending.items, now,
                              kv.sequences)
      ensures config.kvBlockSizeTokens > 0 && AdmissionIs(config, old(active), old(kv.sequences), it)
      ensures active == Surviving(it.joined)
    {
      hide Tree, Batch, Books, Cores, Unbarred, Unfinished, Settled, WithinLimits, PromptSum, Extends, Surviving, Reports,
           Touches, Puts;
      UnbarredBounds(pending.items, {}, {});
      ghost var batch := active;
      Drain();
      WiredUp();
      progressed := AdmitReady();
      ghost var joined, sequences := active, kv.sequences;
      if |joined| == |batch| {
        assert joined[..|batch|] == joined;
      }
      CompleteFinished();
      it := Iteration(preempted, joined, sequences, pending.items, now, kv.sequences);
    }

    /** The second half: one more token for every sequence that keeps its blocks. */
    method DecodePhase()
      requires Valid() && active != []
      modifies this, kv, radix, cache, pending
      ensures Valid() && submitted == old(submitted) && now >= old(now)
      ensures old(results) <= results && old(served) <= served
      ensures Load() <= old(Load())
      ensures Load() == old(Load()) ==>
        && active != [] && Left() < old(Left())
        && Unbarred(pending.items, preempted) <= Unbarred(old(pending.items), old(preempted))
      ensures config.kvBlockSizeTokens > 0
      ensures var kept := Survivors(config, old(active), old(kv.sequences));
        && active == Surviving(SteppedAll(kept, now)) && results == old(results) + Reports(SteppedAll(kept, now), now)
        && |kept| <= SIZE_MAX && Wired()
        && Elapsed(CostModel.SaturatingCost(config.costModel.decodeFixed, config.costModel.decodePerSequence, |kept|),
                   old(now), now)
      ensures pending.items == old(pending.items) + Bounced(Victims(config, old(active), old(kv.sequences)), old(now))
    {
      hide Agrees, CacheSound, Conserved, WindowOk, ResultsOk, Consistent, TreeOk, Injective, BatchOk, AllHold, Growing,
           Cores, Unbarred, Unfinished, Remaining, Stepped, Survivors, Victims, Surviving, Reports, Touches, Puts,
           Bounced, Extends, CostModel.SaturatingCost;
      var ok := PrepareDecodeBlocks();
      DecodeStep();
      CompleteFinished();
    }

    /** One iteration. Progress is a lexicographic descent; no progress means that nothing has arrived yet. */
    method RunOneIteration() returns (progressed: bool, ghost it: Iteration)
      requires Valid()
      modifies this, kv, radix, cache, pending
      ensures Valid() && submitted == old(submitted) && now >= old(now)
      ensures old(results) <= results && old(served) <= served
      ensures progressed ==> Descends(old(Load()), old(Joinable()), old(Left()), Load(), Joinable(), Left())
      ensures !progressed ==>
        && active == [] == old(active) && pending.items == old(pending.items) && now == old(now)
        && forall i | 0 <= i < |pending.items| :: pending.items[i].arrivalTime > now
      ensures it.barred == if old(active) == [] then {} else old(preempted)
      ensures config.kvBlockSizeTokens > 0 && AdmissionIs(config, old(active), old(kv.sequences), it)
      ensures DecodingIs(config, it, active, pending.items, now)
    {
      hide Valid, Unbarred, Remaining, AdmissionIs, Surviving, Survivors, Victims, Bounced, Reports, Elapsed;
      progressed, it := AdmitPhase();
      if active == [] {
        return;
      }
      DecodePhase();
      progressed := true;
    }

    /** The bit of the measure that pays for moving the clock to the next arrival. */
    ghost function Stalled(): nat
      reads this, pending
    {
      if active == [] && forall i | 0 <= i < |pending.items| :: pending.items[i].arrivalTime > now then 1 else 0
    }

    /**
     Runs until queue and batch are both empty. This terminates for every accepted configuration and
     every queue, although preemption throws progress away, and it never takes the source's `break`.
     Every submission then has exactly one result.
     */
    method RunUntilIdle()
      requires Valid()
      modifies this, kv, radix, cache, pending
      ensures Valid() && submitted == old(submitted) && now >= old(now)
      ensures pending.items == [] && active == [] && kv.sequences == map[]
      ensures old(results) <= results && old(served) <= served
      ensures multiset(served) == submitted && ResultsOk(config, results, served)
      ensures forall i | 0 <= i < |results| ::
        results[i].requestId == served[i].requestId && (results[i].succeeded <==> Fits(config, served[i]))
    {
      hide Valid, Unbarred, Remaining, ResultsOk, AdmissionIs, DecodingIs;
      while pending.items != [] || active != []
        invariant Valid() && submitted == old(submitted) && now >= old(now)
        invariant old(results) <= results && old(served) <= served
        decreases Load(), Joinable(), Left(), Stalled()
      {
        var progressed, it := RunOneIteration();
        if !progressed {
          var next := pending.NextArrival();
          if next.None? {
            assert false;
            break;
          }
          AdvanceTo(next.value);
        }
      }
      IdleBooks();
    }

    /** With nothing to do, the clock moves exactly to the next arrival. */
    method AdvanceTo(t: int)
      requires Valid() && t > now && active == []
      requires (exists i | 0 <= i < |pending.items| :: pending.items[i].arrivalTime == t)
               && forall i | 0 <= i < |pending.items| :: t <= pending.items[i].arrivalTime
      modifies this`now
      ensures Valid() && now == t
    {
      hide Agrees, CacheSound, Conserved, WindowOk, ResultsOk, Consistent, TreeOk, Injective, BatchOk, AllHold, Cores;
      now := now + (t - now);
    }

    lemma IdleBooks()
      requires Valid() && pending.items == [] && active == []
      ensures multiset(served) == submitted && ResultsOk(config, results, served) && kv.sequences == map[]
      ensures forall i | 0 <= i < |results| ::
        results[i].requestId == served[i].requestId && (results[i].succeeded <==> Fits(config, served[i]))
    {
      hide Agrees, CacheSound, WindowOk, Fits, SimulatedOutput, Consistent, TreeOk, Injective, AllHold;
      assert Cores(pending.items) == [];
      assert BatchCores(active) == [];
    }

    /** Queues a request; nothing else moves. */
    method Submit(request: EngineRequest)
      requires Valid()
      modifies this`submitted, pending
      ensures Valid() && pending.items == old(pending.items) + [request]
      ensures submitted == old(submitted) + multiset{Core(request)}
    {
      hide Agrees, CacheSound, ResultsOk, Consistent, TreeOk, Injective, BatchOk, AllHold, Cores, ImpossibleReason,
           ConfigAccepted;
      CoresAppend(pending.items, [request]);
      OneCore(request);
      pending.Push(request);
      submitted := submitted + multiset{Core(request)};
    }

    /** Drops every cached prefix. Once idle, that leaves no block allocated. */
    method ClearCaches()
      requires Valid()
      modifies radix, kv
      ensures Valid() && radix.view == map[] && kv.sequences == old(kv.sequences)
      ensures active == [] ==> |kv.freeList| == config.kvBlocks
    {
      hide Agrees, CacheSound, Conserved, WindowOk, ResultsOk, Consistent, TreeOk, AllHold, Cores, ConfigAccepted;
      radix.Clear();
      if active == [] {
        AllMemoryFree();
      }
    }

    /** At every iteration boundary each active request, and nothing else, holds exactly the blocks for its tokens. */
    lemma BoundaryBlocks()
      requires Valid()
      ensures kv.sequences.Keys == ActiveIds(active) && IdsDistinct(active)
      ensures forall i | 0 <= i < |active| ::
        |kv.sequences[active[i].request.requestId]|
        == BlocksForTokens(active[i].request.promptTokens + active[i].generatedTokens, config.kvBlockSizeTokens)
    {
      hide Agrees, CacheSound, Conserved, WindowOk, ResultsOk, Consistent, TreeOk, Injective, Cores, ConfigAccepted,
           BlocksForTokens;
      SequencesAreActiveIds(config, active, kv.sequences);
      forall i | 0 <= i < |active|
        ensures active[i].request.requestId in kv.sequences
        ensures |kv.sequences[active[i].request.requestId]|
          == BlocksForTokens(active[i].request.promptTokens + active[i].generatedTokens, config.kvBlockSizeTokens)
      {
        assert Holds(config.kvBlockSizeTokens, active[i], kv.sequences, 0);
      }
    }

    /** At every iteration boundary: nothing lost, nothing duplicated, no double admission since the batch was last empty. */
    lemma BoundaryBooks()
      requires Valid()
      ensures submitted == Waiting() + multiset(BatchCores(active)) + multiset(served)
      ensures window.admitted <= submitted
      ensures ResultsOk(config, results, served)
    {
      AdmittedAtMostOnce(config, submitted, window, Waiting(), active, served, preempted);
    }
  }

  /** Which constructor rejects a configuration, in the order in which they run. */
  function Rejection(c: EngineConfig): Option<string> {
    if !CostModel.ConfigOk(c.costModel) then Some("invalid cost model configuration")
    else if c.kvBlocks > 0xFFFF_FFFF then Some("block_count exceeds BlockId range")
    else if c.kvBlockSizeTokens == 0 then Some("block_size_tokens must be positive")
    else if c.prefixCacheEntries == 0 then Some("radix prefix cache capacity must be positive")
    else if c.resultCacheEntries == 0 then Some("result cache capacity must be positive")
    else if c.maxBatchSequences == 0 || c.maxBatchTokens == 0 || c.maxPrefillSequencesPerIteration == 0
    then Some("continuous batching limits must be positive")
    else None
  }

  /** Which constructor rejects: the cost model before the allocator before the caches before the limits. */
  lemma RejectionIs(c: EngineConfig)
    ensures Rejection(c).None? <==> ConfigAccepted(c)
    ensures Rejection(c) == Some("invalid cost model configuration") <==> !CostModel.ConfigOk(c.costModel)
    ensures Rejection(c) == Some("block_count exceeds BlockId range") ==> c.kvBlocks > 0xFFFF_FFFF
    ensures Rejection(c) == Some("block_size_tokens must be positive") ==> c.kvBlockSizeTokens == 0 && c.kvBlocks <= 0xFFFF_FFFF
    ensures Rejection(c) == Some("radix prefix cache capacity must be positive") ==>
      c.prefixCacheEntries == 0 && c.kvBlockSizeTokens > 0
    ensures Rejection(c) == Some("result cache capacity must be positive") ==>
      c.resultCacheEntries == 0 && c.prefixCacheEntries > 0
    ensures Rejection(c) == Some("continuous batching limits must be positive") ==>
      && (c.maxBatchSequences == 0 || c.maxBatchTokens == 0 || c.maxPrefillSequencesPerIteration == 0)
      && c.resultCacheEntries > 0
  {
  }

  datatype Created = Engine(engine: ContinuousEngine) | Invalid(reason: string)

  /** Builds an engine, or reports what is wrong with the configuration. */
  method Create(config: EngineConfig) returns (r: Created)
    ensures r.Engine? <==> ConfigAccepted(config)
    ensures r.Invalid? ==> Rejection(config) == Some(r.reason)
    ensures r.Engine? ==> fresh(r.engine) && r.engine.Valid() && r.engine.config == config
    ensures r.Engine? ==> r.engine.pending.items == [] && r.engine.submitted == multiset{} && r.engine.results == []
  {
    var rejection := Rejection(config);
    if rejection.Some? {
      return Invalid(rejection.value);
    }
    var engine := new ContinuousEngine(config);
    return Engine(engine);
  }
}
