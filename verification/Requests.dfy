/**
 Requests, results and the keys computed from them (cpp/include/infersched/engine/deterministic_engine.hpp,
 cpp/src/result_cache_key.cpp and the key and output helpers of cpp/src/continuous_engine.cpp).
 */
module Requests {
  import opened Text

  const SIZE_MAX: nat := 0xFFFF_FFFF_FFFF_FFFF

  type SizeT = n: int | 0 <= n <= SIZE_MAX

  datatype EngineRequest = EngineRequest(
    requestId: string,
    modelRevision: string,
    tokenizerRevision: string,
    promptHash: string,
    promptBlockHashes: seq<string>,
    promptTokens: SizeT,
    maxOutputTokens: SizeT,
    priority: nat,
    samplingSeed: nat,
    temperatureMicros: nat,
    topPMicros: nat,
    arrivalTime: int)

  datatype EngineResult = EngineResult(
    requestId: string,
    output: string,
    completedAt: int,
    firstTokenAt: int,
    resultCacheHit: bool,
    prefixCacheHit: bool,
    succeeded: bool,
    failureReason: string)

  datatype ResultCacheKeyParts = ResultCacheKeyParts(
    modelRevision: string,
    tokenizerRevision: string,
    promptHash: string,
    maxOutputTokens: nat,
    temperatureMicros: nat,
    topPMicros: nat,
    seed: nat)

  function BuildResultCacheKey(parts: ResultCacheKeyParts): string {
    Part(parts.modelRevision) + (Part(parts.tokenizerRevision) + (Part(parts.promptHash) + NumberTail(parts)))
  }

  function NumberTail(parts: ResultCacheKeyParts): string {
    Decimal(parts.maxOutputTokens) + ['|'] + (Decimal(parts.temperatureMicros) + ['|'] + (
    Decimal(parts.topPMicros) + ['|'] + Decimal(parts.seed)))
  }

  lemma NumberTailInjective(a: ResultCacheKeyParts, b: ResultCacheKeyParts)
    requires NumberTail(a) == NumberTail(b)
    ensures a.maxOutputTokens == b.maxOutputTokens && a.temperatureMicros == b.temperatureMicros
    ensures a.topPMicros == b.topPMicros && a.seed == b.seed
  {
    hide Decimal, IsDigit;
    var a3, b3 := Decimal(a.seed), Decimal(b.seed);
    var a2, b2 := Decimal(a.topPMicros) + ['|'] + a3, Decimal(b.topPMicros) + ['|'] + b3;
    var a1, b1 := Decimal(a.temperatureMicros) + ['|'] + a2, Decimal(b.temperatureMicros) + ['|'] + b2;
    BarIsNoDigit();
    DecimalThenDelimiter(a.maxOutputTokens, b.maxOutputTokens, '|', a1, b1);
    DecimalThenDelimiter(a.temperatureMicros, b.temperatureMicros, '|', a2, b2);
    DecimalThenDelimiter(a.topPMicros, b.topPMicros, '|', a3, b3);
    DecimalInjective(a.seed, b.seed);
  }

  lemma BarIsNoDigit()
    ensures !IsDigit('|') && !IsDigit(':')
  {
  }

  /** The key determines every part, for arbitrary strings in the string parts. */
  lemma ResultCacheKeyInjective(a: ResultCacheKeyParts, b: ResultCacheKeyParts)
    requires BuildResultCacheKey(a) == BuildResultCacheKey(b)
    ensures a == b
  {
    hide Part, NumberTail;
    var ta, tb := NumberTail(a), NumberTail(b);
    PartSplits(a.modelRevision, b.modelRevision,
               Part(a.tokenizerRevision) + (Part(a.promptHash) + ta), Part(b.tokenizerRevision) + (Part(b.promptHash) + tb));
    PartSplits(a.tokenizerRevision, b.tokenizerRevision, Part(a.promptHash) + ta, Part(b.promptHash) + tb);
    PartSplits(a.promptHash, b.promptHash, ta, tb);
    NumberTailInjective(a, b);
  }

  function ResultKey(r: EngineRequest): string {
    BuildResultCacheKey(ResultCacheKeyParts(r.modelRevision, r.tokenizerRevision, r.promptHash, r.maxOutputTokens,
                                            r.temperatureMicros, r.topPMicros, r.samplingSeed))
  }

  /** Two requests share a result key exactly when they agree in everything the key is about. */
  lemma ResultKeyIff(a: EngineRequest, b: EngineRequest)
    ensures ResultKey(a) == ResultKey(b) <==>
      && a.modelRevision == b.modelRevision && a.tokenizerRevision == b.tokenizerRevision
      && a.promptHash == b.promptHash && a.maxOutputTokens == b.maxOutputTokens
      && a.temperatureMicros == b.temperatureMicros && a.topPMicros == b.topPMicros
      && a.samplingSeed == b.samplingSeed
  {
    hide BuildResultCacheKey;
    if ResultKey(a) == ResultKey(b) {
      ResultCacheKeyInjective(
        ResultCacheKeyParts(a.modelRevision, a.tokenizerRevision, a.promptHash, a.maxOutputTokens, a.temperatureMicros,
                            a.topPMicros, a.samplingSeed),
        ResultCacheKeyParts(b.modelRevision, b.tokenizerRevision, b.promptHash, b.maxOutputTokens, b.temperatureMicros,
                            b.topPMicros, b.samplingSeed));
    }
  }

  function PrefixNamespace(r: EngineRequest): string {
    Part(r.modelRevision) + Part(r.tokenizerRevision)
  }

  function SimulatedOutput(r: EngineRequest): string {
    "simulated:" + r.modelRevision + ":" + r.promptHash + ":" + Decimal(r.maxOutputTokens) + ":" + Decimal(r.samplingSeed)
  }

  /** Two requests share a prefix namespace exactly when model and tokenizer revision agree. */
  lemma NamespaceInjective(a: EngineRequest, b: EngineRequest)
    ensures PrefixNamespace(a) == PrefixNamespace(b)
      <==> a.modelRevision == b.modelRevision && a.tokenizerRevision == b.tokenizerRevision
  {
    hide Part;
    if PrefixNamespace(a) == PrefixNamespace(b) {
      PartSplits(a.modelRevision, b.modelRevision, Part(a.tokenizerRevision), Part(b.tokenizerRevision));
      assert Part(a.tokenizerRevision) == Part(a.tokenizerRevision) + "";
      assert Part(b.tokenizerRevision) == Part(b.tokenizerRevision) + "";
      PartSplits(a.tokenizerRevision, b.tokenizerRevision, "", "");
    }
  }

  /** A cached text is right for every request that computes this key. */
  ghost predicate Faithful(key: string, output: string) {
    forall r: EngineRequest | ResultKey(r) == key :: output == SimulatedOutput(r)
  }

  /** Requests with equal result keys have equal outputs. */
  lemma OutputIsFaithful(r: EngineRequest)
    ensures Faithful(ResultKey(r), SimulatedOutput(r))
  {
    hide BuildResultCacheKey, Decimal;
    forall q: EngineRequest | ResultKey(q) == ResultKey(r) ensures SimulatedOutput(q) == SimulatedOutput(r) {
      ResultCacheKeyInjective(
        ResultCacheKeyParts(q.modelRevision, q.tokenizerRevision, q.promptHash, q.maxOutputTokens, q.temperatureMicros,
                            q.topPMicros, q.samplingSeed),
        ResultCacheKeyParts(r.modelRevision, r.tokenizerRevision, r.promptHash, r.maxOutputTokens, r.temperatureMicros,
                            r.topPMicros, r.samplingSeed));
    }
  }
}
