/**
 What the continuous engine keeps, stated on values: which blocks the active batch holds, where every
 submitted request is, and the measure that makes the run end. The class in ContinuousEngine.dfy is
 verified against these predicates.
 */
module EngineSpec {
  import opened Arithmetic
  import opened Text
  import opened Requests
  import opened PagedKv
  import opened RadixTree
  import opened RadixCache
  import opened Queueing
  import opened Execution
  import CostModel

  datatype EngineConfig = EngineConfig(
    kvBlocks: SizeT,
    kvBlockSizeTokens: SizeT,
    maxBatchSequences: SizeT,
    maxBatchTokens: SizeT,
    maxPrefillSequencesPerIteration: SizeT,
    resultCacheEntries: SizeT,
    prefixCacheEntries: SizeT,
    costModel: CostModel.CostModelConfig)

  /** The configurations no constructor rejects. */
  predicate ConfigAccepted(c: EngineConfig) {
    && c.kvBlocks <= 0xFFFF_FFFF && c.kvBlockSizeTokens > 0
    && c.prefixCacheEntries > 0 && c.resultCacheEntries > 0
    && c.maxBatchSequences > 0 && c.maxBatchTokens > 0 && c.maxPrefillSequencesPerIteration > 0
    && CostModel.ConfigOk(c.costModel)
  }

  datatype Active = Active(
    request: EngineRequest,
    state: ExecutionState,
    generatedTokens: nat,
    prefixCacheHit: bool,
    firstTokenAt: int)

  function BlocksForTokens(tokens: nat, blockSize: nat): nat
    requires blockSize > 0
  {
    tokens / blockSize + if tokens % blockSize != 0 then 1 else 0
  }

  /** BlocksForTokens is the ceiling of the quotient. */
  lemma BlocksForTokensIsCeiling(tokens: nat, blockSize: nat)
    requires blockSize > 0
    ensures var n := BlocksForTokens(tokens, blockSize);
      blockSize * n >= tokens && (n > 0 ==> blockSize * (n - 1) < tokens)
  {
    QuotientBounds(tokens, blockSize);
    var q, r := tokens / blockSize, tokens % blockSize;
    assert tokens == blockSize * q + r;
  }

  lemma BlocksMonotone(x: nat, y: nat, blockSize: nat)
    requires x <= y && blockSize > 0
    ensures BlocksForTokens(x, blockSize) <= BlocksForTokens(y, blockSize)
  {
    hide BlocksForTokens;
    var m, n := BlocksForTokens(x, blockSize), BlocksForTokens(y, blockSize);
    BlocksForTokensIsCeiling(x, blockSize);
    BlocksForTokensIsCeiling(y, blockSize);
    if m > n {
      MulMonotone(blockSize, n, m - 1);
    }
  }

  function ImpossibleReason(c: EngineConfig, r: EngineRequest): Option<string>
    requires c.kvBlockSizeTokens > 0
  {
    if r.promptTokens > SIZE_MAX - r.maxOutputTokens then Some("token_count_overflow")
    else if r.promptTokens > c.maxBatchTokens then Some("exceeds_max_batch_tokens")
    else if BlocksForTokens(r.promptTokens + r.maxOutputTokens, c.kvBlockSizeTokens) > c.kvBlocks
    then Some("exceeds_kv_capacity")
    else None
  }

  function TotalTokens(r: EngineRequest): nat {
    r.promptTokens + r.maxOutputTokens
  }

  /** The requests the machine can serve: the prompt fits a batch, and prompt and output together fit memory. */
  predicate Fits(c: EngineConfig, r: EngineRequest) {
    && TotalTokens(r) <= SIZE_MAX && r.promptTokens <= c.maxBatchTokens
    && TotalTokens(r) <= c.kvBlocks * c.kvBlockSizeTokens
  }

  lemma BlocksFitIff(tokens: nat, blockSize: nat, blocks: nat)
    requires blockSize > 0
    ensures BlocksForTokens(tokens, blockSize) <= blocks <==> tokens <= blocks * blockSize
  {
    hide BlocksForTokens;
    var n := BlocksForTokens(tokens, blockSize);
    BlocksForTokensIsCeiling(tokens, blockSize);
    if n <= blocks {
      MulMonotone(blockSize, n, blocks);
    } else {
      MulMonotone(blockSize, blocks, n - 1);
    }
  }

  /** Exactly the requests that do not fit are impossible, and each reason has its arithmetic condition. */
  lemma ImpossibleReasonIs(c: EngineConfig, r: EngineRequest)
    requires c.kvBlockSizeTokens > 0
    ensures ImpossibleReason(c, r).None? <==> Fits(c, r)
    ensures ImpossibleReason(c, r) == Some("token_count_overflow") <==> TotalTokens(r) > SIZE_MAX
    ensures ImpossibleReason(c, r) == Some("exceeds_max_batch_tokens") <==>
      TotalTokens(r) <= SIZE_MAX && r.promptTokens > c.maxBatchTokens
    ensures ImpossibleReason(c, r) == Some("exceeds_kv_capacity") <==>
      && TotalTokens(r) <= SIZE_MAX && r.promptTokens <= c.maxBatchTokens
      && TotalTokens(r) > c.kvBlocks * c.kvBlockSizeTokens
  {
    hide BlocksForTokens;
    BlocksFitIff(TotalTokens(r), c.kvBlockSizeTokens, c.kvBlocks);
    ReasonsDiffer();
  }

  lemma ReasonsDiffer()
    ensures "token_count_overflow" != "exceeds_max_batch_tokens" && "token_count_overflow" != "exceeds_kv_capacity"
    ensures "exceeds_max_batch_tokens" != "exceeds_kv_capacity"
  {
    assert "token_count_overflow"[0] != "exceeds_max_batch_tokens"[0] == "exceeds_kv_capacity"[0];
    assert "exceeds_max_batch_tokens"[8] != "exceeds_kv_capacity"[8];
  }

  // ---------------------------------------------------------------- the batch and its memory

  ghost predicate ActiveSound(c: EngineConfig, a: Active, sequences: map<string, seq<BlockId>>)
    requires c.kvBlockSizeTokens > 0
  {
    && ImpossibleReason(c, a.request).None?
    && a.generatedTokens <= a.request.maxOutputTokens
    && a.state == Decode
    && a.request.requestId in sequences
  }

  ghost predicate IdsDistinct(active: seq<Active>) {
    forall i, j | 0 <= i < j < |active| :: active[i].request.requestId != active[j].request.requestId
  }

  /** The allocator's sequences are the active requests, one each. */
  ghost predicate BatchOk(c: EngineConfig, active: seq<Active>, sequences: map<string, seq<BlockId>>)
    requires c.kvBlockSizeTokens > 0
  {
    && |sequences| == |active|
    && IdsDistinct(active)
    && forall i | 0 <= i < |active| :: ActiveSound(c, active[i], sequences)
  }

  ghost function Tokens(a: Active): nat {
    a.request.promptTokens + a.generatedTokens
  }

  /** `a` holds exactly the blocks for its prompt, its tokens so far and `extra` more tokens. */
  ghost predicate Holds(bs: nat, a: Active, sequences: map<string, seq<BlockId>>, extra: nat)
    requires bs > 0
  {
    a.request.requestId in sequences &&
    |sequences[a.request.requestId]| == BlocksForTokens(Tokens(a) + extra, bs)
  }

  ghost predicate AllHold(bs: nat, active: seq<Active>, sequences: map<string, seq<BlockId>>, extra: nat)
    requires bs > 0
  {
    forall i | 0 <= i < |active| :: Holds(bs, active[i], sequences, extra)
  }

  /** While blocks for the next token are being added: the first `n` have them, the rest may. */
  ghost predicate Growing(bs: nat, active: seq<Active>, sequences: map<string, seq<BlockId>>, n: nat)
    requires bs > 0
  {
    forall i | 0 <= i < |active| ::
      if i < n then Holds(bs, active[i], sequences, 1)
      else Holds(bs, active[i], sequences, 0) || Holds(bs, active[i], sequences, 1)
  }

  ghost function ActiveIds(active: seq<Active>): set<string> {
    set i | 0 <= i < |active| :: active[i].request.requestId
  }

  lemma {:induction false} ActiveIdsCard(active: seq<Active>)
    requires IdsDistinct(active)
    ensures |ActiveIds(active)| == |active|
  {
    if active != [] {
      var n := |active| - 1;
      ActiveIdsCard(active[..n]);
      assert ActiveIds(active) == ActiveIds(active[..n]) + {active[n].request.requestId} by {
        assert forall i | 0 <= i < n :: active[..n][i] == active[i];
      }
      assert active[n].request.requestId !in ActiveIds(active[..n]);
    }
  }

  /** The counting form of BatchOk gives the set equality. */
  lemma SequencesAreActiveIds(c: EngineConfig, active: seq<Active>, sequences: map<string, seq<BlockId>>)
    requires c.kvBlockSizeTokens > 0 && BatchOk(c, active, sequences)
    ensures sequences.Keys == ActiveIds(active)
  {
    ActiveIdsCard(active);
    assert forall i | 0 <= i < |active| :: ActiveSound(c, active[i], sequences);
    assert ActiveIds(active) <= sequences.Keys;
    if k :| k in sequences.Keys && k !in ActiveIds(active) {
      SubsetCard(ActiveIds(active), sequences.Keys - {k});
    }
  }

  lemma BatchAdmit(c: EngineConfig, active: seq<Active>, sequences: map<string, seq<BlockId>>, a: Active,
                   blocks: seq<BlockId>)
    requires c.kvBlockSizeTokens > 0 && BatchOk(c, active, sequences)
    requires AllHold(c.kvBlockSizeTokens, active, sequences, 0)
    requires a.request.requestId !in sequences && ImpossibleReason(c, a.request).None?
    requires a.generatedTokens == 0 && a.state == Decode
    requires |blocks| == BlocksForTokens(a.request.promptTokens, c.kvBlockSizeTokens)
    ensures var s := sequences[a.request.requestId := blocks];
      BatchOk(c, active + [a], s) && AllHold(c.kvBlockSizeTokens, active + [a], s, 0)
  {
    hide ImpossibleReason, BlocksForTokens;
    var s := sequences[a.request.requestId := blocks];
    assert s.Keys == sequences.Keys + {a.request.requestId};
    var all := active + [a];
    forall i | 0 <= i < |all|
      ensures ActiveSound(c, all[i], s) && Holds(c.kvBlockSizeTokens, all[i], s, 0)
    {
      if i < |active| {
        assert ActiveSound(c, active[i], sequences) && Holds(c.kvBlockSizeTokens, active[i], sequences, 0);
      }
    }
    forall i, j | 0 <= i < j < |all| ensures all[i].request.requestId != all[j].request.requestId {
      assert ActiveSound(c, active[i], sequences);
    }
  }

  lemma BatchRemove(c: EngineConfig, active: seq<Active>, sequences: map<string, seq<BlockId>>, i: nat)
    requires c.kvBlockSizeTokens > 0 && BatchOk(c, active, sequences) && i < |active|
    ensures BatchOk(c, RemoveAt(active, i), sequences - {active[i].request.requestId})
    ensures forall j | 0 <= j < |active| && j != i :: active[j].request.requestId != active[i].request.requestId
  {
    hide ImpossibleReason;
    var id := active[i].request.requestId;
    var rest, s := RemoveAt(active, i), sequences - {id};
    assert ActiveSound(c, active[i], sequences);
    assert s.Keys == sequences.Keys - {id};
    forall j | 0 <= j < |rest| ensures ActiveSound(c, rest[j], s) {
      var k := if j < i then j else j + 1;
      assert rest[j] == active[k] && ActiveSound(c, active[k], sequences);
    }
  }

  lemma HoldsAfterRemove(bs: nat, active: seq<Active>, sequences: map<string, seq<BlockId>>, i: nat, extra: nat)
    requires bs > 0 && i < |active| && AllHold(bs, active, sequences, extra)
    requires forall j | 0 <= j < |active| && j != i :: active[j].request.requestId != active[i].request.requestId
    ensures AllHold(bs, RemoveAt(active, i), sequences - {active[i].request.requestId}, extra)
  {
    hide BlocksForTokens;
    var rest, s := RemoveAt(active, i), sequences - {active[i].request.requestId};
    forall j | 0 <= j < |rest| ensures Holds(bs, rest[j], s, extra) {
      var k := if j < i then j else j + 1;
      assert rest[j] == active[k] && Holds(bs, active[k], sequences, extra);
    }
  }

  lemma GrowingAfterRemove(bs: nat, active: seq<Active>, sequences: map<string, seq<BlockId>>, n: nat, i: nat)
    requires bs > 0 && i < |active| && Growing(bs, active, sequences, n)
    requires forall j | 0 <= j < |active| && j != i :: active[j].request.requestId != active[i].request.requestId
    ensures Growing(bs, RemoveAt(active, i), sequences - {active[i].request.requestId}, 0)
  {
    hide BlocksForTokens;
    var rest, s := RemoveAt(active, i), sequences - {active[i].request.requestId};
    forall j | 0 <= j < |rest| ensures Holds(bs, rest[j], s, 0) || Holds(bs, rest[j], s, 1) {
      var k := if j < i then j else j + 1;
      assert rest[j] == active[k];
      assert Holds(bs, active[k], sequences, 0) || Holds(bs, active[k], sequences, 1);
    }
  }

  /** One sequence got its blocks for the next token. */
  lemma GrowOne(c: EngineConfig, active: seq<Active>, sequences: map<string, seq<BlockId>>, i: nat, blocks: seq<BlockId>)
    requires c.kvBlockSizeTokens > 0 && BatchOk(c, active, sequences) && i < |active|
    requires Growing(c.kvBlockSizeTokens, active, sequences, i)
    requires |blocks| == BlocksForTokens(Tokens(active[i]) + 1, c.kvBlockSizeTokens)
    ensures var s := sequences[active[i].request.requestId := blocks];
      BatchOk(c, active, s) && Growing(c.kvBlockSizeTokens, active, s, i + 1)
  {
    hide ImpossibleReason, BlocksForTokens;
    var s := sequences[active[i].request.requestId := blocks];
    assert ActiveSound(c, active[i], sequences);
    assert s.Keys == sequences.Keys;
    forall j | 0 <= j < |active| ensures ActiveSound(c, active[j], s) {
      assert ActiveSound(c, active[j], sequences);
    }
    forall j | 0 <= j < |active|
      ensures if j < i + 1 then Holds(c.kvBlockSizeTokens, active[j], s, 1)
              else Holds(c.kvBlockSizeTokens, active[j], s, 0) || Holds(c.kvBlockSizeTokens, active[j], s, 1)
    {
      if j != i {
        assert active[j].request.requestId != active[i].request.requestId;
      }
    }
  }

  /** A sequence that already has enough blocks has exactly enough. */
  lemma AlreadyGrown(c: EngineConfig, active: seq<Active>, sequences: map<string, seq<BlockId>>, i: nat)
    requires c.kvBlockSizeTokens > 0 && BatchOk(c, active, sequences) && i < |active|
    requires Growing(c.kvBlockSizeTokens, active, sequences, i)
    requires BlocksForTokens(Tokens(active[i]) + 1, c.kvBlockSizeTokens) <= |sequences[active[i].request.requestId]|
    ensures Growing(c.kvBlockSizeTokens, active, sequences, i + 1)
  {
    hide BlocksForTokens;
    BlocksMonotone(Tokens(active[i]), Tokens(active[i]) + 1, c.kvBlockSizeTokens);
  }

  lemma BatchStep(c: EngineConfig, active: seq<Active>, sequences: map<string, seq<BlockId>>, now: int)
    requires c.kvBlockSizeTokens > 0 && BatchOk(c, active, sequences)
    requires Growing(c.kvBlockSizeTokens, active, sequences, |active|) && Unfinished(active)
    ensures BatchOk(c, SteppedAll(active, now), sequences)
    ensures AllHold(c.kvBlockSizeTokens, SteppedAll(active, now), sequences, 0)
    ensures BatchCores(SteppedAll(active, now)) == BatchCores(active)
  {
    hide ImpossibleReason, BlocksForTokens;
    var next := SteppedAll(active, now);
    forall i | 0 <= i < |active|
      ensures ActiveSound(c, next[i], sequences) && Holds(c.kvBlockSizeTokens, next[i], sequences, 0)
    {
      assert ActiveSound(c, active[i], sequences) && Holds(c.kvBlockSizeTokens, active[i], sequences, 1);
      assert Tokens(next[i]) == Tokens(active[i]) + 1;
    }
  }

  /** Every active sequence still has a token to generate. */
  ghost predicate Unfinished(active: seq<Active>) {
    forall i | 0 <= i < |active| :: active[i].generatedTokens < active[i].request.maxOutputTokens
  }

  /** The batch without its finished members, in order. */
  ghost function Surviving(active: seq<Active>): seq<Active> {
    if active == [] then []
    else
      var n := |active| - 1;
      Surviving(active[..n]) +
      if active[n].generatedTokens < active[n].request.maxOutputTokens then [active[n]] else []
  }

  lemma {:induction false} SurvivingFacts(active: seq<Active>)
    ensures Unfinished(Surviving(active)) && |Surviving(active)| <= |active|
    ensures |Surviving(active)| == |active| || Unfinished(active) ==> Surviving(active) == active
  {
    if active != [] {
      var n := |active| - 1;
      SurvivingFacts(active[..n]);
      assert active == active[..n] + [active[n]];
    }
  }

  /** Removing the finished member after the first `k` have been looked at. */
  lemma SurvivingStep(all: seq<Active>, k: nat)
    requires k < |all|
    ensures var done := Surviving(all[..k]);
      && (done + all[k..])[|done|] == all[k]
      && if all[k].generatedTokens < all[k].request.maxOutputTokens
         then Surviving(all[..k + 1]) == done + [all[k]] && done + all[k..] == Surviving(all[..k + 1]) + all[k + 1..]
         else Surviving(all[..k + 1]) == done && RemoveAt(done + all[k..], |done|) == done + all[k + 1..]
  {
    assert all[..k + 1][..k] == all[..k];
    assert all[k..] == [all[k]] + all[k + 1..];
  }

  /** A sequence that fits the machine still fits it after one more token. */
  lemma NextTokenFits(c: EngineConfig, a: Active)
    requires c.kvBlockSizeTokens > 0 && ImpossibleReason(c, a.request).None?
    requires a.generatedTokens < a.request.maxOutputTokens
    ensures BlocksForTokens(Tokens(a) + 1, c.kvBlockSizeTokens) <= c.kvBlocks
    ensures Tokens(a) + 1 <= SIZE_MAX
  {
    hide BlocksForTokens;
    BlocksMonotone(Tokens(a) + 1, a.request.promptTokens + a.request.maxOutputTokens, c.kvBlockSizeTokens);
  }

  lemma PromptFits(c: EngineConfig, r: EngineRequest)
    requires c.kvBlockSizeTokens > 0 && ImpossibleReason(c, r).None?
    ensures BlocksForTokens(r.promptTokens, c.kvBlockSizeTokens) <= c.kvBlocks
    ensures r.promptTokens <= c.maxBatchTokens
  {
    hide BlocksForTokens;
    BlocksMonotone(r.promptTokens, r.promptTokens + r.maxOutputTokens, c.kvBlockSizeTokens);
  }

  /** Tokens covered by matched blocks never exceed the prompt. */
  lemma CachedTokensFit(c: EngineConfig, promptTokens: nat, matched: nat)
    requires c.kvBlockSizeTokens > 0 && matched < BlocksForTokens(promptTokens, c.kvBlockSizeTokens)
    ensures matched * c.kvBlockSizeTokens <= promptTokens
  {
    hide BlocksForTokens;
    var n := BlocksForTokens(promptTokens, c.kvBlockSizeTokens);
    BlocksForTokensIsCeiling(promptTokens, c.kvBlockSizeTokens);
    MulMonotone(c.kvBlockSizeTokens, matched, n - 1);
  }

  /** Prompt tokens that no matched block covers. */
  function UncachedTokens(c: EngineConfig, promptTokens: SizeT, matched: nat): (n: SizeT)
    requires c.kvBlockSizeTokens > 0
  {
    if matched >= BlocksForTokens(promptTokens, c.kvBlockSizeTokens) then 0
    else
      CachedTokensFit(c, promptTokens, matched);
      promptTokens - matched * c.kvBlockSizeTokens
  }

  // ---------------------------------------------------------------- admission limits

  ghost function PromptSum(active: seq<Active>): nat {
    if active == [] then 0
    else
      var n := |active| - 1;
      PromptSum(active[..n]) + active[n].request.promptTokens
  }

  /** What one admission scan may add to a batch: few enough sequences, and tokens for all of them and the batch. */
  ghost predicate WithinLimits(c: EngineConfig, batch: seq<Active>, active: seq<Active>, budget: nat, sequences: nat) {
    && |batch| <= |active| && active[..|batch|] == batch
    && sequences == |active| - |batch| <= c.maxPrefillSequencesPerIteration
    && budget == PromptSum(active[|batch|..]) <= c.maxBatchTokens
    && (sequences > 0 ==> |active| - 1 + budget <= c.maxBatchTokens)
  }

  lemma LimitsStart(c: EngineConfig, batch: seq<Active>)
    ensures WithinLimits(c, batch, batch, 0, 0)
  {
    assert batch[|batch|..] == [];
  }

  lemma LimitsGive(c: EngineConfig, batch: seq<Active>, active: seq<Active>, budget: nat, sequences: nat)
    requires WithinLimits(c, batch, active, budget, sequences)
    ensures |batch| <= |active| && active[..|batch|] == batch && budget <= c.maxBatchTokens
    ensures sequences == |active| - |batch| && budget == PromptSum(active[|batch|..])
  {
  }

  lemma LimitsStep(c: EngineConfig, batch: seq<Active>, active: seq<Active>, budget: nat, sequences: nat, next: seq<Active>)
    requires WithinLimits(c, batch, active, budget, sequences) && sequences != c.maxPrefillSequencesPerIteration
    requires |next| == |active| + 1 && next[..|active|] == active
    requires |active| + budget + next[|active|].request.promptTokens <= c.maxBatchTokens
    ensures WithinLimits(c, batch, next, budget + next[|active|].request.promptTokens, sequences + 1)
  {
    assert next[..|batch|] == next[..|active|][..|batch|];
    var n := |next[|batch|..]| - 1;
    assert next[|batch|..][..n] == active[|batch|..];
  }

  // ---------------------------------------------------------------- what an admission scan leaves behind

  /** The blocks that the sequences of a batch hold. */
  ghost function HeldBlocks(sequences: map<string, seq<BlockId>>, active: seq<Active>): set<BlockId> {
    set i, b | 0 <= i < |active| && active[i].request.requestId in sequences
               && b in sequences[active[i].request.requestId] :: b
  }

  /** With no prefix cached, the free blocks are those that no batch member holds. */
  lemma FreeIsUnheld(c: EngineConfig, v: Kv, active: seq<Active>)
    requires c.kvBlockSizeTokens > 0 && Consistent(v) && v.pins == map[] && BatchOk(c, active, v.sequences)
    ensures |v.freeList| + |HeldBlocks(v.sequences, active)| == |v.refcounts|
  {
    hide Distinct, InRange, ActiveSound, ImpossibleReason;
    var held := HeldBlocks(v.sequences, active);
    SequencesAreActiveIds(c, active, v.sequences);
    forall b | b in held ensures 0 <= b < |v.refcounts| {
      HeldIsLive(v, b);
    }
    forall b | 0 <= b < |v.refcounts| ensures b in v.freeList <==> b !in held {
      NoPins(b);
      HolderIsMember(active, v.sequences, b);
    }
    PartitionSet(|v.refcounts|, v.freeList, held);
  }

  lemma HolderIsMember(active: seq<Active>, sequences: map<string, seq<BlockId>>, b: BlockId)
    requires sequences.Keys == ActiveIds(active)
    ensures |Holders(sequences, b)| == 0 <==> b !in HeldBlocks(sequences, active)
  {
    if b in HeldBlocks(sequences, active) {
      var i :| 0 <= i < |active| && active[i].request.requestId in sequences && b in sequences[active[i].request.requestId];
      assert active[i].request.requestId in Holders(sequences, b);
    } else {
      assert Holders(sequences, b) == {} by {
        forall k | k in sequences ensures b !in sequences[k] {
          var i :| 0 <= i < |active| && active[i].request.requestId == k;
        }
      }
    }
  }

  /** `a` is the size of the batch when `q` had its turn; the members that joined before it precede it. */
  ghost predicate Excused(c: EngineConfig, n0: nat, active: seq<Active>, sequences: map<string, seq<BlockId>>,
                          preempted: set<string>, q: EngineRequest, a: nat)
    requires c.kvBlockSizeTokens > 0
  {
    && n0 <= a <= |active| && Fits(c, q) && Preceded(n0, active[..a], q)
    && (|| (a > 0 && q.requestId in preempted)
        || a + PromptSum(active[n0..a]) + q.promptTokens > c.maxBatchTokens
        || q.requestId in ActiveIds(active[..a])
        || c.kvBlocks - |HeldBlocks(sequences, active[..a])| < BlocksForTokens(q.promptTokens, c.kvBlockSizeTokens))
  }

  /** The new members of the batch come before `q` in the order of the queue. */
  ghost predicate Preceded(n0: nat, active: seq<Active>, q: EngineRequest) {
    forall i | n0 <= i < |active| :: !Later(active[i].request, q)
  }

  /** At its turn `q` was barred, too wide, running already, or short of blocks even with no prefix cached. */
  ghost predicate HasExcuse(c: EngineConfig, n0: nat, active: seq<Active>, sequences: map<string, seq<BlockId>>,
                            preempted: set<string>, q: EngineRequest)
    requires c.kvBlockSizeTokens > 0
  {
    exists a: nat :: Excused(c, n0, active, sequences, preempted, q, a)
  }

  /** The scan ended before `q`: the batch is full or has its share of new sequences, all of them before `q`. */
  ghost predicate CutOff(c: EngineConfig, n0: nat, active: seq<Active>, q: EngineRequest) {
    && Preceded(n0, active, q)
    && (|active| >= c.maxBatchSequences || |active| - n0 == c.maxPrefillSequencesPerIteration)
  }

  ghost predicate LeftBehind(c: EngineConfig, n0: nat, active: seq<Active>, sequences: map<string, seq<BlockId>>,
                             preempted: set<string>, q: EngineRequest)
    requires c.kvBlockSizeTokens > 0
  {
    HasExcuse(c, n0, active, sequences, preempted, q) || CutOff(c, n0, active, q)
  }

  /** Every request still queued has not arrived, was cut off by a limit, or has an excuse. */
  ghost predicate Settled(c: EngineConfig, n0: nat, active: seq<Active>, sequences: map<string, seq<BlockId>>,
                          preempted: set<string>, items: seq<EngineRequest>, now: int)
    requires c.kvBlockSizeTokens > 0
  {
    forall j | 0 <= j < |items| ::
      items[j].arrivalTime > now || LeftBehind(c, n0, active, sequences, preempted, items[j])
  }

  ghost predicate AllLeftBehind(c: EngineConfig, n0: nat, active: seq<Active>, sequences: map<string, seq<BlockId>>,
                                preempted: set<string>, deferred: seq<EngineRequest>)
    requires c.kvBlockSizeTokens > 0
  {
    forall j | 0 <= j < |deferred| :: LeftBehind(c, n0, active, sequences, preempted, deferred[j])
  }

  /** The new members come before everything still in the queue. */
  ghost predicate Orderly(n0: nat, active: seq<Active>, items: seq<EngineRequest>) {
    forall j | 0 <= j < |items| :: Preceded(n0, active, items[j])
  }

  /** Sequences may be added; those there keep their blocks. */
  ghost predicate Extends(sequences: map<string, seq<BlockId>>, sequences': map<string, seq<BlockId>>) {
    forall id | id in sequences :: id in sequences' && sequences'[id] == sequences[id]
  }

  lemma HeldStays(active: seq<Active>, sequences: map<string, seq<BlockId>>, sequences': map<string, seq<BlockId>>)
    requires Extends(sequences, sequences') && forall i | 0 <= i < |active| :: active[i].request.requestId in sequences
    ensures HeldBlocks(sequences', active) == HeldBlocks(sequences, active)
  {
  }

  /** An excuse given earlier in the scan stands when the batch has grown since. */
  lemma ExcuseStays(c: EngineConfig, n0: nat, active: seq<Active>, sequences: map<string, seq<BlockId>>,
                    preempted: set<string>, q: EngineRequest, next: seq<Active>, sequences': map<string, seq<BlockId>>)
    requires c.kvBlockSizeTokens > 0 && HasExcuse(c, n0, active, sequences, preempted, q)
    requires |active| <= |next| && next[..|active|] == active && Extends(sequences, sequences')
    requires forall i | 0 <= i < |active| :: active[i].request.requestId in sequences
    ensures HasExcuse(c, n0, next, sequences', preempted, q)
  {
    hide HeldBlocks, PromptSum, BlocksForTokens, Fits, Preceded;
    var a: nat :| Excused(c, n0, active, sequences, preempted, q, a);
    assert n0 <= a <= |active|;
    assert next[..a] == next[..|active|][..a] == active[..a];
    assert next[n0..a] == next[..a][n0..] == active[n0..a];
    HeldStays(active[..a], sequences, sequences');
    assert Excused(c, n0, next, sequences', preempted, q, a);
  }

  /** A turn that admits a member, or nobody, leaves those put aside before where they are. */
  lemma LeftBehindStays(c: EngineConfig, n0: nat, active: seq<Active>, sequences: map<string, seq<BlockId>>,
                        preempted: set<string>, deferred: seq<EngineRequest>, next: seq<Active>,
                        sequences': map<string, seq<BlockId>>)
    requires c.kvBlockSizeTokens > 0 && AllLeftBehind(c, n0, active, sequences, preempted, deferred)
    requires |active| <= |next| && next[..|active|] == active && Extends(sequences, sequences')
    requires forall i | 0 <= i < |active| :: active[i].request.requestId in sequences
    requires n0 <= |active| && (next == active || (|active| < c.maxBatchSequences
             && |active| - n0 != c.maxPrefillSequencesPerIteration))
    ensures AllLeftBehind(c, n0, next, sequences', preempted, deferred)
  {
    hide HasExcuse, Preceded;
    forall j | 0 <= j < |deferred| ensures LeftBehind(c, n0, next, sequences', preempted, deferred[j]) {
      assert LeftBehind(c, n0, active, sequences, preempted, deferred[j]);
      if HasExcuse(c, n0, active, sequences, preempted, deferred[j]) {
        ExcuseStays(c, n0, active, sequences, preempted, deferred[j], next, sequences');
      }
    }
  }

  lemma SettledTogether(c: EngineConfig, n0: nat, active: seq<Active>, sequences: map<string, seq<BlockId>>,
                        preempted: set<string>, items: seq<EngineRequest>, deferred: seq<EngineRequest>, now: int)
    requires c.kvBlockSizeTokens > 0 && Settled(c, n0, active, sequences, preempted, items, now)
    requires AllLeftBehind(c, n0, active, sequences, preempted, deferred)
    ensures Settled(c, n0, active, sequences, preempted, items + deferred, now)
  {
    hide LeftBehind;
  }

  lemma AdmitOrderly(n0: nat, active: seq<Active>, items: seq<EngineRequest>, next: seq<Active>, items': seq<EngineRequest>)
    requires Orderly(n0, active, items) && forall q | q in items' :: q in items
    requires n0 <= |active| <= |next| <= |active| + 1 && next[..|active|] == active
    requires |next| > |active| ==> forall j | 0 <= j < |items| :: !Later(next[|active|].request, items[j])
    ensures Orderly(n0, next, items')
  {
    hide Later;
    forall j, i | 0 <= j < |items'| && n0 <= i < |next| ensures !Later(next[i].request, items'[j]) {
      assert items'[j] in items;
      var k :| 0 <= k < |items| && items[k] == items'[j];
      assert Preceded(n0, active, items[k]);
      assert i < |active| ==> next[i] == active[i];
    }
  }

  // ---------------------------------------------------------------- prefix nodes and blocks

  /** Different tree nodes hold different blocks. */
  ghost predicate Injective(view: map<Path, Entry>) {
    forall p, q | p in view && q in view && p != q :: view[p].block != view[q].block
  }

  /** The blocks of the longest cached prefix, from the root down. */
  ghost predicate MatchBlocks(view: map<Path, Entry>, ns: string, hashes: seq<string>, blocks: seq<BlockId>) {
    && IsLongest(view, ns, hashes, |blocks|)
    && forall i | 0 <= i < |blocks| :: blocks[i] == view[Prefix(ns, hashes, i + 1)].block
  }

  lemma MatchIsUsable(view: map<Path, Entry>, issued: set<string>, v: Kv, ns: string, hashes: seq<string>,
                      blocks: seq<BlockId>)
    requires Consistent(v) && PinsOk(view, issued, v.pins) && Injective(view)
    requires MatchBlocks(view, ns, hashes, blocks)
    ensures LiveAndDistinct(v.refcounts, blocks)
  {
    hide Consistent, FreeOk, CountsOk;
    forall i | 0 <= i < |blocks| ensures blocks[i] < |v.refcounts| && v.refcounts[blocks[i]] > 0 {
      var p := Prefix(ns, hashes, i + 1);
      assert p in view;
      assert blocks[i] in v.pins[view[p].pinKey];
      HeldIsLive(v, blocks[i]);
    }
    forall i, j | 0 <= i < j < |blocks| ensures blocks[i] != blocks[j] {
      var p, q := Prefix(ns, hashes, i + 1), Prefix(ns, hashes, j + 1);
      assert |p.hashes| < |q.hashes|;
      assert p in view && q in view;
    }
  }

  lemma TouchedMatch(view: map<Path, Entry>, clock: nat, ns: string, hashes: seq<string>, blocks: seq<BlockId>)
    requires MatchBlocks(view, ns, hashes, blocks) && Injective(view)
    ensures MatchBlocks(Touched(view, clock, ns, hashes, |blocks|), ns, hashes, blocks)
    ensures Injective(Touched(view, clock, ns, hashes, |blocks|))
  {
    var t := Touched(view, clock, ns, hashes, |blocks|);
    assert t.Keys == view.Keys;
    assert forall p | p in view :: t[p].block == view[p].block;
  }

  lemma NoMatch(view: map<Path, Entry>, ns: string, hashes: seq<string>, blocks: seq<BlockId>)
    requires MatchBlocks(view, ns, hashes, blocks)
    ensures blocks != [] ==> view != map[]
  {
    if blocks != [] {
      assert Prefix(ns, hashes, 1) in view;
    }
  }

  /** Nodes may have gone; those left are on the blocks they were on. */
  ghost predicate Shrunk(before: map<Path, Entry>, after: map<Path, Entry>) {
    after.Keys <= before.Keys && forall p | p in after :: after[p].block == before[p].block
  }

  lemma ShrunkFurther(a: map<Path, Entry>, b: map<Path, Entry>, c: map<Path, Entry>)
    requires Shrunk(a, b) && Shrunk(b, c)
    ensures Shrunk(a, c)
  {
  }

  lemma TouchedShrinks(view: map<Path, Entry>, clock: nat, ns: string, hashes: seq<string>, n: nat)
    requires n <= |hashes|
    ensures Shrunk(view, Touched(view, clock, ns, hashes, n)) && Touched(view, clock, ns, hashes, n).Keys == view.Keys
  {
  }

  /** A sequence's blocks extend its prefix match by blocks no node holds. */
  ghost predicate Grafts(view: map<Path, Entry>, ns: string, hashes: seq<string>, blocks: seq<BlockId>, matched: nat) {
    && matched <= |blocks| && Distinct(blocks)
    && MatchBlocks(view, ns, hashes, blocks[..matched])
    && forall i, p | matched <= i < |blocks| && p in view :: view[p].block != blocks[i]
  }

  lemma AllocationGrafts(view: map<Path, Entry>, issued: set<string>, v: Kv, id: string, required: nat, ns: string,
                         hashes: seq<string>, shared: seq<BlockId>)
    requires Consistent(v) && PinsOk(view, issued, v.pins)
    requires MatchBlocks(view, ns, hashes, shared)
    requires AllocationVerdict(v, id, required, shared) == Allocated
    ensures var blocks := AllocatedView(v, id, required, shared).sequences[id];
      Grafts(view, ns, hashes, blocks, |shared|) && |blocks| == required
  {
    hide Consistent, CountsOk, MatchBlocks;
    var taken := Taken(v.freeList, required - |shared|);
    var blocks := shared + taken;
    FreshBlocks(v, required - |shared|);
    assert blocks[..|shared|] == shared;
    AllocatedConsistent(v, id, required, shared);
    DistinctAppend(shared, taken);
    forall i, p | |shared| <= i < |blocks| && p in view ensures view[p].block != blocks[i] {
      assert blocks[i] in taken;
      assert view[p].block in v.pins[view[p].pinKey];
      HeldIsLive(v, view[p].block);
    }
  }

  lemma FreshBlocks(v: Kv, count: nat)
    requires Consistent(v) && count <= |v.freeList|
    ensures Distinct(Taken(v.freeList, count))
    ensures forall b | b in Taken(v.freeList, count) :: b < |v.refcounts| && v.refcounts[b] == 0
  {
    TakenFacts(v.refcounts, v.freeList, count);
  }

  /** Old nodes keep their block; the node of a new prefix of length k holds the prompt's k-th block. */
  ghost predicate BlockOrigin(view: map<Path, Entry>, v: map<Path, Entry>, ns: string, hashes: seq<string>,
                              blocks: seq<BlockId>, n: nat)
    requires n <= |hashes| && n <= |blocks|
  {
    forall p | p in v ::
      if p in view then v[p].block == view[p].block
      else p.ns == ns && 0 < |p.hashes| <= n && p.hashes == hashes[..|p.hashes|] && v[p].block == blocks[|p.hashes| - 1]
  }

  lemma OriginStep(view: map<Path, Entry>, v: map<Path, Entry>, ns: string, hashes: seq<string>, blocks: seq<BlockId>,
                   n: nat, e: Entry)
    requires n < |hashes| && n < |blocks| && BlockOrigin(view, v, ns, hashes, blocks, n)
    requires var p := Prefix(ns, hashes, n + 1);
      if p in v then e.block == v[p].block else p !in view && e.block == blocks[n]
    ensures BlockOrigin(view, v[Prefix(ns, hashes, n + 1) := e], ns, hashes, blocks, n + 1)
  {
  }

  lemma {:induction false} InsertedBlocks(view: map<Path, Entry>, nextPin: nat, clock: nat, ns: string,
                                          hashes: seq<string>, blocks: seq<BlockId>, n: nat)
    requires n <= |hashes| && n <= |blocks|
    ensures BlockOrigin(view, Inserted(view, nextPin, clock, ns, hashes, blocks, n).view, ns, hashes, blocks, n)
  {
    hide Decimal, PinKey, BlockOrigin;
    if n == 0 {
      OriginStart(view, ns, hashes, blocks);
    } else {
      InsertedKeys(view, nextPin, clock, ns, hashes, blocks, n - 1);
      InsertedBlocks(view, nextPin, clock, ns, hashes, blocks, n - 1);
      var v, before := Inserted(view, nextPin, clock, ns, hashes, blocks, n).view,
                       Inserted(view, nextPin, clock, ns, hashes, blocks, n - 1).view;
      var p := Prefix(ns, hashes, n);
      assert v == before[p := v[p]];
      assert if p in before then v[p].block == before[p].block else p !in view && v[p].block == blocks[n - 1];
      OriginStep(view, before, ns, hashes, blocks, n - 1, v[p]);
    }
  }

  lemma OriginStart(view: map<Path, Entry>, ns: string, hashes: seq<string>, blocks: seq<BlockId>)
    ensures BlockOrigin(view, view, ns, hashes, blocks, 0)
  {
  }

  /** Inserting a grafted sequence keeps nodes and blocks one to one. */
  lemma InsertedInjective(view: map<Path, Entry>, nextPin: nat, clock: nat, ns: string, hashes: seq<string>,
                          blocks: seq<BlockId>, matched: nat, n: nat)
    requires n <= |hashes| && n <= |blocks|
    requires Injective(view) && Grafts(view, ns, hashes, blocks, matched)
    ensures Injective(Inserted(view, nextPin, clock, ns, hashes, blocks, n).view)
  {
    hide Inserted;
    InsertedBlocks(view, nextPin, clock, ns, hashes, blocks, n);
    var v := Inserted(view, nextPin, clock, ns, hashes, blocks, n).view;
    forall p, q | p in v && q in v && p != q ensures v[p].block != v[q].block {
      if p !in view {
        NewNodeIndex(view, ns, hashes, blocks, matched, p);
      }
      if q !in view {
        NewNodeIndex(view, ns, hashes, blocks, matched, q);
      }
    }
  }

  lemma NewNodeIndex(view: map<Path, Entry>, ns: string, hashes: seq<string>, blocks: seq<BlockId>, matched: nat, p: Path)
    requires Grafts(view, ns, hashes, blocks, matched)
    requires p !in view && p.ns == ns && 0 < |p.hashes| <= |hashes| && p.hashes == hashes[..|p.hashes|]
    ensures |p.hashes| > matched
  {
    assert p == Prefix(ns, hashes, |p.hashes|);
  }

  lemma EvictedInjective(view: map<Path, Entry>, limit: nat)
    requires Injective(view)
    ensures Injective(EvictedTo(view, limit))
  {
    hide EvictedTo;
    EvictedToShrinks(view, limit);
  }

  // ---------------------------------------------------------------- where every request is

  /** A request without the arrival time, which preemption rewrites. */
  function Core(r: EngineRequest): EngineRequest {
    r.(arrivalTime := 0)
  }

  function Cores(items: seq<EngineRequest>): seq<EngineRequest> {
    seq(|items|, i requires 0 <= i < |items| => Core(items[i]))
  }

  function BatchCores(active: seq<Active>): seq<EngineRequest> {
    seq(|active|, i requires 0 <= i < |active| => Core(active[i].request))
  }

  lemma CoresAppend(a: seq<EngineRequest>, b: seq<EngineRequest>)
    ensures multiset(Cores(a + b)) == multiset(Cores(a)) + multiset(Cores(b))
  {
    assert Cores(a + b) == Cores(a) + Cores(b);
  }

  lemma CoresRemove(a: seq<EngineRequest>, i: nat)
    requires i < |a|
    ensures multiset(Cores(a)) == multiset(Cores(RemoveAt(a, i))) + multiset{Core(a[i])}
  {
    assert Cores(a) == Cores(a[..i]) + [Core(a[i])] + Cores(a[i + 1..]);
    assert Cores(RemoveAt(a, i)) == Cores(a[..i]) + Cores(a[i + 1..]);
  }

  lemma BatchCoresAppend(a: seq<Active>, x: Active)
    ensures multiset(BatchCores(a + [x])) == multiset(BatchCores(a)) + multiset{Core(x.request)}
  {
    assert BatchCores(a + [x]) == BatchCores(a) + [Core(x.request)];
  }

  lemma BatchCoresRemove(a: seq<Active>, i: nat)
    requires i < |a|
    ensures multiset(BatchCores(a)) == multiset(BatchCores(RemoveAt(a, i))) + multiset{Core(a[i].request)}
  {
    assert BatchCores(a) == BatchCores(a[..i]) + [Core(a[i].request)] + BatchCores(a[i + 1..]);
    assert BatchCores(RemoveAt(a, i)) == BatchCores(a[..i]) + BatchCores(a[i + 1..]);
  }

  /** Submitted requests are waiting, active or served: none is lost, none is duplicated. */
  ghost predicate Conserved(submitted: multiset<EngineRequest>, waiting: multiset<EngineRequest>, active: seq<Active>,
                            served: seq<EngineRequest>) {
    submitted == waiting + multiset(BatchCores(active)) + multiset(served)
  }

  /** Admissions since the batch was last empty, and what became of them. */
  datatype Window = Window(admitted: multiset<EngineRequest>, finished: multiset<EngineRequest>, bounced: multiset<EngineRequest>)

  ghost predicate WindowOk(c: EngineConfig, w: Window, waiting: multiset<EngineRequest>, active: seq<Active>,
                           served: seq<EngineRequest>, preempted: set<string>)
    requires c.kvBlockSizeTokens > 0
  {
    && w.admitted == multiset(BatchCores(active)) + w.finished + w.bounced
    && w.finished <= multiset(served)
    && w.bounced <= waiting
    && forall r | r in w.bounced :: r.requestId in preempted && ImpossibleReason(c, r).None?
  }

  /** Between two empty batches no submission is admitted twice. */
  lemma AdmittedAtMostOnce(c: EngineConfig, submitted: multiset<EngineRequest>, w: Window, waiting: multiset<EngineRequest>,
                           active: seq<Active>, served: seq<EngineRequest>, preempted: set<string>)
    requires c.kvBlockSizeTokens > 0
    requires Conserved(submitted, waiting, active, served) && WindowOk(c, w, waiting, active, served, preempted)
    ensures w.admitted <= submitted
  {
  }

  lemma BooksServe(c: EngineConfig, submitted: multiset<EngineRequest>, w: Window, waiting: multiset<EngineRequest>,
                   active: seq<Active>, served: seq<EngineRequest>, preempted: set<string>, r: EngineRequest)
    requires c.kvBlockSizeTokens > 0
    requires Conserved(submitted, waiting, active, served) && WindowOk(c, w, waiting, active, served, preempted)
    requires r in waiting && (r.requestId !in preempted || ImpossibleReason(c, r).Some?)
    ensures Conserved(submitted, waiting - multiset{r}, active, served + [r])
    ensures WindowOk(c, w, waiting - multiset{r}, active, served + [r], preempted)
  {
    assert r !in w.bounced;
    assert multiset(served + [r]) == multiset(served) + multiset{r};
  }

  lemma BooksAdmit(c: EngineConfig, submitted: multiset<EngineRequest>, w: Window, waiting: multiset<EngineRequest>,
                   active: seq<Active>, served: seq<EngineRequest>, preempted: set<string>, a: Active)
    requires c.kvBlockSizeTokens > 0
    requires Conserved(submitted, waiting, active, served) && WindowOk(c, w, waiting, active, served, preempted)
    requires Core(a.request) in waiting && a.request.requestId !in preempted
    ensures var r := Core(a.request);
      && Conserved(submitted, waiting - multiset{r}, active + [a], served)
      && WindowOk(c, w.(admitted := w.admitted + multiset{r}), waiting - multiset{r}, active + [a], served, preempted)
  {
    assert Core(a.request) !in w.bounced;
    BatchCoresAppend(active, a);
  }

  lemma BooksFinish(c: EngineConfig, submitted: multiset<EngineRequest>, w: Window, waiting: multiset<EngineRequest>,
                    active: seq<Active>, served: seq<EngineRequest>, preempted: set<string>, i: nat)
    requires c.kvBlockSizeTokens > 0 && i < |active|
    requires Conserved(submitted, waiting, active, served) && WindowOk(c, w, waiting, active, served, preempted)
    ensures var r := Core(active[i].request);
      && Conserved(submitted, waiting, RemoveAt(active, i), served + [r])
      && WindowOk(c, w.(finished := w.finished + multiset{r}), waiting, RemoveAt(active, i), served + [r], preempted)
  {
    var r := Core(active[i].request);
    BatchCoresRemove(active, i);
    assert multiset(served + [r]) == multiset(served) + multiset{r};
  }

  lemma BooksPreempt(c: EngineConfig, submitted: multiset<EngineRequest>, w: Window, waiting: multiset<EngineRequest>,
                     active: seq<Active>, served: seq<EngineRequest>, preempted: set<string>, i: nat)
    requires c.kvBlockSizeTokens > 0 && i < |active| && ImpossibleReason(c, active[i].request).None?
    requires Conserved(submitted, waiting, active, served) && WindowOk(c, w, waiting, active, served, preempted)
    ensures var r := Core(active[i].request);
      && Conserved(submitted, waiting + multiset{r}, RemoveAt(active, i), served)
      && WindowOk(c, w.(bounced := w.bounced + multiset{r}), waiting + multiset{r}, RemoveAt(active, i), served,
                  preempted + {r.requestId})
  {
    hide ImpossibleReason, Core;
    BatchCoresRemove(active, i);
    CoreLooksAlike(c, active[i].request);
    var r := Core(active[i].request);
    forall q | q in w.bounced + multiset{r} ensures q in w.bounced || q == r {
      assert (w.bounced + multiset{r})[q] == w.bounced[q] + multiset{r}[q];
    }
  }

  /** The arrival time plays no part in what becomes of a request. */
  lemma CoreLooksAlike(c: EngineConfig, r: EngineRequest)
    requires c.kvBlockSizeTokens > 0
    ensures ImpossibleReason(c, Core(r)) == ImpossibleReason(c, r)
    ensures SimulatedOutput(Core(r)) == SimulatedOutput(r) && Core(r).requestId == r.requestId
  {
  }

  /** When the batch is empty the window starts afresh. */
  lemma BooksDrain(c: EngineConfig, w: Window, waiting: multiset<EngineRequest>, served: seq<EngineRequest>,
                   preempted: set<string>)
    requires c.kvBlockSizeTokens > 0
    ensures WindowOk(c, Window(multiset{}, multiset{}, multiset{}), waiting, [], served, {})
  {
  }

  /** One result answers one request: with its own output if it fits the machine, else with the reason. */
  ghost predicate ResultFor(c: EngineConfig, result: EngineResult, r: EngineRequest)
    requires c.kvBlockSizeTokens > 0
  {
    && result.requestId == r.requestId && (result.succeeded <==> Fits(c, r))
    && if TotalTokens(r) > SIZE_MAX then result.failureReason == "token_count_overflow"
       else if r.promptTokens > c.maxBatchTokens then result.failureReason == "exceeds_max_batch_tokens"
       else if TotalTokens(r) > c.kvBlocks * c.kvBlockSizeTokens then result.failureReason == "exceeds_kv_capacity"
       else result.output == SimulatedOutput(r)
  }

  /** What the engine reports answers the request: the reason it is impossible, or its output. */
  lemma ReportAnswers(c: EngineConfig, result: EngineResult, r: EngineRequest)
    requires c.kvBlockSizeTokens > 0 && result.requestId == r.requestId
    requires if ImpossibleReason(c, r).Some? then !result.succeeded && Some(result.failureReason) == ImpossibleReason(c, r)
             else result.succeeded && result.output == SimulatedOutput(r)
    ensures ResultFor(c, result, r)
  {
    hide ImpossibleReason, SimulatedOutput;
    ImpossibleReasonIs(c, r);
  }

  ghost predicate ResultsOk(c: EngineConfig, results: seq<EngineResult>, served: seq<EngineRequest>)
    requires c.kvBlockSizeTokens > 0
  {
    |results| == |served| && forall i | 0 <= i < |results| :: ResultFor(c, results[i], served[i])
  }

  ghost predicate CacheSound(entries: map<string, string>) {
    forall k | k in entries :: Faithful(k, entries[k])
  }

  // ---------------------------------------------------------------- the measure

  /** Pending requests that may join the running batch. */
  ghost function Unbarred(items: seq<EngineRequest>, preempted: set<string>): nat {
    if items == [] then 0
    else
      var n := |items| - 1;
      Unbarred(items[..n], preempted) + if items[n].requestId in preempted then 0 else 1
  }

  lemma {:induction false} UnbarredAppend(a: seq<EngineRequest>, b: seq<EngineRequest>, preempted: set<string>)
    ensures Unbarred(a + b, preempted) == Unbarred(a, preempted) + Unbarred(b, preempted)
  {
    if b == [] {
      assert a + b == a;
    } else {
      var n := |b| - 1;
      UnbarredAppend(a, b[..n], preempted);
      assert (a + b)[..|a + b| - 1] == a + b[..n];
    }
  }

  lemma UnbarredOne(r: EngineRequest, preempted: set<string>)
    ensures Unbarred([r], preempted) == if r.requestId in preempted then 0 else 1
  {
    assert [r][..0] == [];
  }

  lemma UnbarredRemove(a: seq<EngineRequest>, i: nat, preempted: set<string>)
    requires i < |a|
    ensures Unbarred(a, preempted)
      == Unbarred(RemoveAt(a, i), preempted) + if a[i].requestId in preempted then 0 else 1
  {
    UnbarredAppend(a[..i], a[i + 1..], preempted);
    UnbarredAppend(a[..i], [a[i]], preempted);
    UnbarredAppend(a[..i] + [a[i]], a[i + 1..], preempted);
    UnbarredOne(a[i], preempted);
    assert a == a[..i] + [a[i]] + a[i + 1..];
  }

  lemma {:induction false} UnbarredBounds(a: seq<EngineRequest>, before: set<string>, after: set<string>)
    requires before <= after
    ensures Unbarred(a, after) <= Unbarred(a, before) <= |a|
  {
    if a != [] {
      UnbarredBounds(a[..|a| - 1], before, after);
    }
  }

  /** Queue, deferred candidates, batch and number of results at one moment of an admission scan. */
  datatype Tally = Tally(items: seq<EngineRequest>, deferred: seq<EngineRequest>, batch: nat, results: nat)

  /** Between two moments of a scan nothing is lost, and no barred request joins. */
  ghost predicate TallyMoves(a: Tally, b: Tally, preempted: set<string>) {
    && |a.items| + |a.deferred| + a.batch + a.results == |b.items| + |b.deferred| + b.batch + b.results
    && a.batch <= b.batch && a.results <= b.results
    && Unbarred(b.items, preempted) + Unbarred(b.deferred, preempted) + b.batch
       <= Unbarred(a.items, preempted) + Unbarred(a.deferred, preempted) + a.batch
  }

  lemma TallyOrder(a: Tally, b: Tally, preempted: set<string>)
    requires TallyMoves(a, b, preempted)
    ensures a.batch <= b.batch && a.results <= b.results
  {
  }

  lemma TallyTransitive(a: Tally, b: Tally, c: Tally, preempted: set<string>)
    requires TallyMoves(a, b, preempted) && TallyMoves(b, c, preempted)
    ensures TallyMoves(a, c, preempted)
  {
    hide Unbarred;
  }

  /** Results and the requests they answer only grow. */
  ghost predicate Grew(results: seq<EngineResult>, served: seq<EngineRequest>, results': seq<EngineResult>,
                       served': seq<EngineRequest>) {
    results <= results' && served <= served'
  }

  lemma GrewTransitive(r: seq<EngineResult>, s: seq<EngineRequest>, r1: seq<EngineResult>, s1: seq<EngineRequest>,
                       r2: seq<EngineResult>, s2: seq<EngineRequest>)
    requires Grew(r, s, r1, s1) && Grew(r1, s1, r2, s2)
    ensures Grew(r, s, r2, s2)
  {
  }

  /** Tokens still to generate for one sequence. */
  function TokensLeft(a: Active): nat {
    if a.generatedTokens <= a.request.maxOutputTokens then a.request.maxOutputTokens - a.generatedTokens else 0
  }

  ghost function Remaining(active: seq<Active>): nat {
    if active == [] then 0
    else
      var n := |active| - 1;
      Remaining(active[..n]) + TokensLeft(active[n])
  }

  lemma RemainingAppend(a: seq<Active>, x: Active)
    ensures Remaining(a + [x]) == Remaining(a) + TokensLeft(x)
  {
    assert (a + [x])[..|a|] == a;
  }

  lemma {:induction false} RemainingRemove(a: seq<Active>, i: nat)
    requires i < |a|
    ensures Remaining(a) == Remaining(RemoveAt(a, i)) + TokensLeft(a[i])
  {
    hide TokensLeft;
    var n := |a| - 1;
    if i == n {
      assert RemoveAt(a, i) == a[..n];
    } else {
      RemainingRemove(a[..n], i);
      assert RemoveAt(a, i) == RemoveAt(a[..n], i) + [a[n]];
      RemainingAppend(RemoveAt(a[..n], i), a[n]);
    }
  }

  function Stepped(a: Active, now: int): Active {
    var n := a.generatedTokens + 1;
    a.(generatedTokens := n, firstTokenAt := if n == 1 then now else a.firstTokenAt)
  }

  function SteppedAll(active: seq<Active>, now: int): (r: seq<Active>)
    ensures |r| == |active| && forall i | 0 <= i < |r| :: r[i] == Stepped(active[i], now)
  {
    seq(|active|, i requires 0 <= i < |active| => Stepped(active[i], now))
  }

  /** A decode step takes one token off every active sequence. */
  lemma {:induction false} RemainingStep(active: seq<Active>, now: int)
    requires Unfinished(active)
    ensures Remaining(SteppedAll(active, now)) == Remaining(active) - |active|
  {
    if active != [] {
      var n := |active| - 1;
      RemainingStep(active[..n], now);
      assert SteppedAll(active, now)[..n] == SteppedAll(active[..n], now);
    }
  }
}
