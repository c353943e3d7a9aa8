/**
 What one iteration of the continuous engine does, stated on values: who joined and who was left behind,
 who finished, who was preempted, and who gained a token (cpp/src/continuous_engine.cpp, RunOneIteration).
 */
module Iterations {
  import opened Text
  import opened Requests
  import opened PagedKv
  import opened ResultCaching
  import opened Queueing
  import opened EngineSpec
  import opened Preemption

  predicate IsFinished(a: Active) {
    a.generatedTokens >= a.request.maxOutputTokens
  }

  /** The result of a finished member. A member that wanted no token has its first token time now. */
  function Report(a: Active, now: int): EngineResult {
    EngineResult(a.request.requestId, SimulatedOutput(a.request), now,
                 if a.generatedTokens == 0 then now else a.firstTokenAt, false, a.prefixCacheHit, true, "")
  }

  /** The results of the finished members, in batch order. */
  function Reports(active: seq<Active>, now: int): seq<EngineResult> {
    if active == [] then []
    else
      var n := |active| - 1;
      Reports(active[..n], now) + if IsFinished(active[n]) then [Report(active[n], now)] else []
  }

  /** The recency stack of the result cache after the finished members' outputs have been put. */
  function Touches(stack: seq<string>, active: seq<Active>): seq<string> {
    if active == [] then stack
    else
      var n := |active| - 1;
      var s := Touches(stack, active[..n]);
      if IsFinished(active[n]) then Front(s, ResultKey(active[n].request)) else s
  }

  function Puts(values: map<string, string>, active: seq<Active>): map<string, string> {
    if active == [] then values
    else
      var n := |active| - 1;
      var m := Puts(values, active[..n]);
      if IsFinished(active[n]) then m[ResultKey(active[n].request) := SimulatedOutput(active[n].request)] else m
  }

  lemma FinishedStep(all: seq<Active>, k: nat, now: int, stack: seq<string>, values: map<string, string>)
    requires k < |all|
    ensures Reports(all[..k + 1], now) == Reports(all[..k], now) + if IsFinished(all[k]) then [Report(all[k], now)] else []
    ensures Touches(stack, all[..k + 1])
      == if IsFinished(all[k]) then Front(Touches(stack, all[..k]), ResultKey(all[k].request)) else Touches(stack, all[..k])
    ensures Puts(values, all[..k + 1])
      == if IsFinished(all[k]) then Puts(values, all[..k])[ResultKey(all[k].request) := SimulatedOutput(all[k].request)]
         else Puts(values, all[..k])
  {
    hide ResultKey, SimulatedOutput, Front;
    assert all[..k + 1][..k] == all[..k];
  }

  lemma NothingFinished(all: seq<Active>, now: int, stack: seq<string>, values: map<string, string>)
    ensures Reports(all[..0], now) == [] && Touches(stack, all[..0]) == stack && Puts(values, all[..0]) == values
  {
  }

  /**
     The course of an iteration. `barred` are the preempted ids during admission; `joined`, `sequences`,
     `waiting` and `at` are batch, sequences, queue and clock after it; `held` are the sequences once the
     members that wanted no token have left.
   */
  datatype Iteration = Iteration(
    barred: set<string>,
    joined: seq<Active>,
    sequences: map<string, seq<BlockId>>,
    waiting: seq<EngineRequest>,
    at: int,
    held: map<string, seq<BlockId>>)

  /** Admission: as many arrived requests join, in order, as the limits and memory allow. */
  ghost predicate AdmissionIs(c: EngineConfig, batch: seq<Active>, sequences: map<string, seq<BlockId>>, it: Iteration)
    requires c.kvBlockSizeTokens > 0
  {
    && |batch| <= |it.joined|
    && WithinLimits(c, batch, it.joined, PromptSum(it.joined[|batch|..]), |it.joined| - |batch|)
    && Settled(c, |batch|, it.joined, it.sequences, it.barred, it.waiting, it.at)
    && Extends(sequences, it.sequences) && Extends(it.held, it.sequences)
  }

  /** Decoding: the victims go back into the queue, every survivor gains a token, finished members leave. */
  ghost predicate DecodingIs(c: EngineConfig, it: Iteration, active: seq<Active>, items: seq<EngineRequest>, now: int)
    requires c.kvBlockSizeTokens > 0
  {
    var started := Surviving(it.joined);
    if started == [] then active == [] && items == it.waiting && now == it.at
    else
      && active == Surviving(SteppedAll(Survivors(c, started, it.held), now))
      && items == it.waiting + Bounced(Victims(c, started, it.held), it.at)
  }

  // ---------------------------------------------------------------- the time of the first token

  /** A member after decode steps that ended at the given clock values. */
  ghost function SteppedThrough(a: Active, clocks: seq<int>): Active {
    if clocks == [] then a else Stepped(SteppedThrough(a, clocks[..|clocks| - 1]), clocks[|clocks| - 1])
  }

  /** A result's first token time is the clock after the member's first decode step. */
  lemma {:induction false} FirstTokenIsFirstStep(a: Active, clocks: seq<int>, now: int)
    requires a.generatedTokens == 0 && clocks != []
    ensures SteppedThrough(a, clocks).generatedTokens == |clocks|
    ensures Report(SteppedThrough(a, clocks), now).firstTokenAt == clocks[0]
    ensures SteppedThrough(a, clocks).request == a.request
  {
    hide SimulatedOutput;
    var n := |clocks| - 1;
    if n == 0 {
      assert clocks[..0] == [];
    } else {
      FirstTokenIsFirstStep(a, clocks[..n], now);
    }
  }
}
