/**
 Who is preempted when memory runs short (cpp/src/continuous_engine.cpp, PrepareDecodeBlocks and
 SelectVictim), stated on values: a batch demands the blocks it holds and the blocks its next tokens need;
 while that is more than the machine has, the least preferred member goes.
 */
module Preemption {
  import opened Arithmetic
  import opened Text
  import opened Requests
  import opened PagedKv
  import opened Queueing
  import opened EngineSpec

  // ---------------------------------------------------------------- the victim order

  /** `i` is preferred as a victim over `j`: lower priority, then more tokens left, then earlier in the batch. */
  predicate VictimBefore(active: seq<Active>, i: nat, j: nat)
    requires i < |active| && j < |active|
  {
    var a, b := active[i], active[j];
    a.request.priority < b.request.priority
    || (a.request.priority == b.request.priority
        && (TokensLeft(a) > TokensLeft(b) || (TokensLeft(a) == TokensLeft(b) && i < j)))
  }

  ghost predicate IsVictim(active: seq<Active>, i: nat) {
    i < |active| && forall j | 0 <= j < |active| && j != i :: VictimBefore(active, i, j)
  }

  lemma VictimUnique(active: seq<Active>, i: nat, j: nat)
    requires IsVictim(active, i) && IsVictim(active, j)
    ensures i == j
  {
    assert i == j || VictimBefore(active, i, j);
    assert i == j || VictimBefore(active, j, i);
  }

  lemma OneMoreMember(active: seq<Active>, n: nat, v: nat)
    requires |active| == n + 1 && IsVictim(active[..n], v)
    ensures IsVictim(active, if VictimBefore(active, n, v) then n else v)
  {
    hide TokensLeft;
    var w := if VictimBefore(active, n, v) then n else v;
    forall j | 0 <= j < |active| && j != w ensures VictimBefore(active, w, j) {
      if j < n && j != v {
        assert VictimBefore(active[..n], v, j);
      }
    }
  }

  ghost function VictimOf(active: seq<Active>): (v: nat)
    requires active != []
    ensures IsVictim(active, v)
  {
    if |active| == 1 then 0
    else
      var n := |active| - 1;
      var v := VictimOf(active[..n]);
      OneMoreMember(active, n, v);
      if VictimBefore(active, n, v) then n else v
  }

  // ---------------------------------------------------------------- what a batch demands

  ghost function HeldCount(sequences: map<string, seq<BlockId>>, a: Active): nat {
    if a.request.requestId in sequences then |sequences[a.request.requestId]| else 0
  }

  /** The blocks missing for a member's next token. */
  ghost function Need(bs: nat, a: Active, sequences: map<string, seq<BlockId>>): nat
    requires bs > 0
  {
    var n, held := BlocksForTokens(Tokens(a) + 1, bs), HeldCount(sequences, a);
    if held < n then n - held else 0
  }

  ghost function NeedSum(bs: nat, active: seq<Active>, sequences: map<string, seq<BlockId>>): nat
    requires bs > 0
  {
    if active == [] then 0
    else
      var n := |active| - 1;
      NeedSum(bs, active[..n], sequences) + Need(bs, active[n], sequences)
  }

  /** The blocks a batch holds, shared ones counted once, and those its next tokens need. */
  ghost function Demand(bs: nat, active: seq<Active>, sequences: map<string, seq<BlockId>>): nat
    requires bs > 0
  {
    |HeldBlocks(sequences, active)| + NeedSum(bs, active, sequences)
  }

  /** What is left of a batch once enough victims have gone. */
  ghost function Survivors(c: EngineConfig, active: seq<Active>, sequences: map<string, seq<BlockId>>): seq<Active>
    requires c.kvBlockSizeTokens > 0
    decreases |active|
  {
    if active == [] || Demand(c.kvBlockSizeTokens, active, sequences) <= c.kvBlocks then active
    else Survivors(c, RemoveAt(active, VictimOf(active)), sequences)
  }

  /** The victims, in the order in which they go. */
  ghost function Victims(c: EngineConfig, active: seq<Active>, sequences: map<string, seq<BlockId>>): seq<Active>
    requires c.kvBlockSizeTokens > 0
    decreases |active|
  {
    if active == [] || Demand(c.kvBlockSizeTokens, active, sequences) <= c.kvBlocks then []
    else [active[VictimOf(active)]] + Victims(c, RemoveAt(active, VictimOf(active)), sequences)
  }

  /** Victims as they go back into the queue. */
  function Bounced(victims: seq<Active>, now: int): (r: seq<EngineRequest>)
    ensures |r| == |victims|
    ensures forall i | 0 <= i < |r| :: r[i] == victims[i].request.(arrivalTime := now)
  {
    seq(|victims|, i requires 0 <= i < |victims| => victims[i].request.(arrivalTime := now))
  }

  // ---------------------------------------------------------------- what that means

  /** Positions of a batch without position `v`, as positions of the whole. */
  function Around(v: nat, s: seq<nat>): (r: seq<nat>)
    ensures |r| == |s| && forall i | 0 <= i < |s| :: r[i] == if s[i] < v then s[i] else s[i] + 1
  {
    seq(|s|, i requires 0 <= i < |s| => if s[i] < v then s[i] else s[i] + 1)
  }

  /** `gone` and `kept` share out the positions of the batch; everyone gone precedes everyone kept. */
  ghost predicate Split(active: seq<Active>, gone: seq<nat>, kept: seq<nat>) {
    && |gone| + |kept| == |active|
    && (forall i | 0 <= i < |gone| :: gone[i] < |active|) && (forall i | 0 <= i < |kept| :: kept[i] < |active|)
    && (forall i, j | 0 <= i < j < |kept| :: kept[i] < kept[j])
    && (forall i, j | 0 <= i < j < |gone| :: VictimBefore(active, gone[i], gone[j]))
    && (forall i, j | 0 <= i < |gone| && 0 <= j < |kept| :: VictimBefore(active, gone[i], kept[j]))
  }

  function Pick(active: seq<Active>, at: seq<nat>): (r: seq<Active>)
    requires forall i | 0 <= i < |at| :: at[i] < |active|
    ensures |r| == |at| && forall i | 0 <= i < |at| :: r[i] == active[at[i]]
  {
    seq(|at|, i requires 0 <= i < |at| => active[at[i]])
  }

  lemma RestBefore(active: seq<Active>, v: nat, i: nat, j: nat)
    requires v < |active| && i < |active| - 1 && j < |active| - 1 && VictimBefore(RemoveAt(active, v), i, j)
    ensures VictimBefore(active, if i < v then i else i + 1, if j < v then j else j + 1)
  {
  }

  lemma SplitAround(active: seq<Active>, v: nat, gone: seq<nat>, kept: seq<nat>)
    requires IsVictim(active, v) && Split(RemoveAt(active, v), gone, kept)
    ensures Split(active, [v] + Around(v, gone), Around(v, kept))
  {
    hide VictimBefore;
    var rest, g, k := RemoveAt(active, v), [v] + Around(v, gone), Around(v, kept);
    forall i, j | 0 <= i < j < |g| ensures VictimBefore(active, g[i], g[j]) {
      if i > 0 {
        RestBefore(active, v, gone[i - 1], gone[j - 1]);
      }
    }
    forall i, j | 0 <= i < |g| && 0 <= j < |k| ensures VictimBefore(active, g[i], k[j]) {
      if i > 0 {
        RestBefore(active, v, gone[i - 1], kept[j]);
      }
    }
  }

  /**
     Everyone preempted precedes every survivor in the order of priority, tokens left and position; the
     survivors keep their order.
   */
  lemma {:induction false} VictimsComeFirst(c: EngineConfig, active: seq<Active>, sequences: map<string, seq<BlockId>>)
      returns (gone: seq<nat>, kept: seq<nat>)
    requires c.kvBlockSizeTokens > 0
    ensures Split(active, gone, kept)
    ensures Victims(c, active, sequences) == Pick(active, gone) && Survivors(c, active, sequences) == Pick(active, kept)
    decreases |active|
  {
    hide Split, VictimBefore, Demand, RemoveAt;
    if active == [] || Demand(c.kvBlockSizeTokens, active, sequences) <= c.kvBlocks {
      gone, kept := [], seq(|active|, i requires 0 <= i < |active| => i);
      NobodyGone(active, kept);
      assert Pick(active, kept) == active;
    } else {
      var v := VictimOf(active);
      var rest := RemoveAt(active, v);
      var g, k := VictimsComeFirst(c, rest, sequences);
      SplitAround(active, v, g, k);
      SplitRange(rest, g, k);
      gone, kept := [v] + Around(v, g), Around(v, k);
      SplitRange(active, gone, kept);
      PickAround(active, v, g);
      PickAround(active, v, k);
      assert Pick(active, gone) == [active[v]] + Pick(active, Around(v, g));
    }
  }

  /** In plain terms: no victim has a higher priority than a survivor, nor with equal priority fewer tokens left. */
  lemma VictimsAreLeast(c: EngineConfig, active: seq<Active>, sequences: map<string, seq<BlockId>>, x: Active, y: Active)
    requires c.kvBlockSizeTokens > 0 && x in Victims(c, active, sequences) && y in Survivors(c, active, sequences)
    requires x.generatedTokens <= x.request.maxOutputTokens && y.generatedTokens <= y.request.maxOutputTokens
    ensures x.request.priority <= y.request.priority
    ensures x.request.priority == y.request.priority ==>
      x.request.maxOutputTokens - x.generatedTokens >= y.request.maxOutputTokens - y.generatedTokens
  {
    hide Demand;
    var gone, kept := VictimsComeFirst(c, active, sequences);
    var i :| 0 <= i < |gone| && Pick(active, gone)[i] == x;
    var j :| 0 <= j < |kept| && Pick(active, kept)[j] == y;
    assert VictimBefore(active, gone[i], kept[j]);
  }

  lemma PickAround(active: seq<Active>, v: nat, at: seq<nat>)
    requires v < |active| && forall i | 0 <= i < |at| :: at[i] < |active| - 1
    ensures forall i | 0 <= i < |at| :: Around(v, at)[i] < |active|
    ensures Pick(active, Around(v, at)) == Pick(RemoveAt(active, v), at)
  {
  }

  lemma NobodyGone(active: seq<Active>, kept: seq<nat>)
    requires |kept| == |active| && forall i | 0 <= i < |kept| :: kept[i] == i
    ensures Split(active, [], kept)
  {
  }

  lemma SplitRange(active: seq<Active>, gone: seq<nat>, kept: seq<nat>)
    requires Split(active, gone, kept)
    ensures (forall i | 0 <= i < |gone| :: gone[i] < |active|) && (forall i | 0 <= i < |kept| :: kept[i] < |active|)
  {
  }

  /** Nobody goes exactly when the whole batch fits; and with one victim fewer it would not. */
  lemma VictimsAreNeeded(c: EngineConfig, active: seq<Active>, sequences: map<string, seq<BlockId>>)
    requires c.kvBlockSizeTokens > 0 && active != []
    ensures Victims(c, active, sequences) == [] <==> Demand(c.kvBlockSizeTokens, active, sequences) <= c.kvBlocks
    ensures Survivors(c, active, sequences) == active <==> Demand(c.kvBlockSizeTokens, active, sequences) <= c.kvBlocks
  {
    SurvivorsShrink(c, active, sequences);
    if Demand(c.kvBlockSizeTokens, active, sequences) > c.kvBlocks {
      SurvivorsShrink(c, RemoveAt(active, VictimOf(active)), sequences);
    }
  }

  lemma {:induction false} SurvivorsShrink(c: EngineConfig, active: seq<Active>, sequences: map<string, seq<BlockId>>)
    requires c.kvBlockSizeTokens > 0
    ensures |Survivors(c, active, sequences)| + |Victims(c, active, sequences)| == |active|
    ensures Survivors(c, active, sequences) == []
      || Demand(c.kvBlockSizeTokens, Survivors(c, active, sequences), sequences) <= c.kvBlocks
    decreases |active|
  {
    if active != [] && Demand(c.kvBlockSizeTokens, active, sequences) > c.kvBlocks {
      SurvivorsShrink(c, RemoveAt(active, VictimOf(active)), sequences);
    }
  }

  /** Survivors are members of the batch, and have no more tokens left than it. */
  lemma {:induction false} SurvivorsKeep(c: EngineConfig, active: seq<Active>, sequences: map<string, seq<BlockId>>)
    requires c.kvBlockSizeTokens > 0
    ensures multiset(Survivors(c, active, sequences)) <= multiset(active)
    ensures Remaining(Survivors(c, active, sequences)) <= Remaining(active)
    ensures |Survivors(c, active, sequences)| + |Victims(c, active, sequences)| == |active|
    decreases |active|
  {
    hide Demand, Remaining, RemoveAt, VictimBefore;
    if active != [] && Demand(c.kvBlockSizeTokens, active, sequences) > c.kvBlocks {
      var v := VictimOf(active);
      SurvivorsKeep(c, RemoveAt(active, v), sequences);
      RemainingRemove(active, v);
      FewerMembers(active, v);
    }
  }

  lemma FewerMembers(active: seq<Active>, v: nat)
    requires v < |active|
    ensures multiset(RemoveAt(active, v)) <= multiset(active)
  {
    assert active == active[..v] + [active[v]] + active[v + 1..];
  }

  // ---------------------------------------------------------------- growing does not change the demand

  /** The blocks a member has got since `before`. */
  ghost function Extra(a: Active, before: map<string, seq<BlockId>>, now: map<string, seq<BlockId>>): seq<BlockId> {
    var id := a.request.requestId;
    if id in before && id in now && |before[id]| <= |now[id]| then now[id][|before[id]|..] else []
  }

  /** The member has its old blocks, and either no new ones or exactly those for its next token. */
  ghost predicate Grew1(bs: nat, a: Active, before: map<string, seq<BlockId>>, now: map<string, seq<BlockId>>)
    requires bs > 0
  {
    var id := a.request.requestId;
    && id in before && id in now && before[id] <= now[id] && Distinct(now[id])
    && (now[id] == before[id] || |now[id]| == BlocksForTokens(Tokens(a) + 1, bs))
  }

  /** New blocks of one member are nobody else's. */
  ghost predicate Apart(a: Active, b: Active, before: map<string, seq<BlockId>>, now: map<string, seq<BlockId>>) {
    b.request.requestId in now && forall x | x in Extra(a, before, now) :: x !in now[b.request.requestId]
  }

  ghost predicate Grown(bs: nat, active: seq<Active>, before: map<string, seq<BlockId>>, now: map<string, seq<BlockId>>)
    requires bs > 0
  {
    && (forall i | 0 <= i < |active| :: Grew1(bs, active[i], before, now))
    && (forall i, j | 0 <= i < |active| && 0 <= j < |active| && i != j :: Apart(active[i], active[j], before, now))
  }

  ghost function ExtraSum(active: seq<Active>, before: map<string, seq<BlockId>>, now: map<string, seq<BlockId>>): nat {
    if active == [] then 0
    else
      var n := |active| - 1;
      ExtraSum(active[..n], before, now) + |Extra(active[n], before, now)|
  }

  ghost function Extras(active: seq<Active>, before: map<string, seq<BlockId>>, now: map<string, seq<BlockId>>): set<BlockId> {
    set i, x | 0 <= i < |active| && x in Extra(active[i], before, now) :: x
  }

  lemma GrownShorter(bs: nat, active: seq<Active>, n: nat, before: map<string, seq<BlockId>>, now: map<string, seq<BlockId>>)
    requires bs > 0 && n <= |active| && Grown(bs, active, before, now)
    ensures Grown(bs, active[..n], before, now)
  {
    hide Grew1, Apart;
  }

  lemma {:induction false} NeedsFall(bs: nat, active: seq<Active>, before: map<string, seq<BlockId>>,
                                     now: map<string, seq<BlockId>>)
    requires bs > 0 && Grown(bs, active, before, now)
    ensures NeedSum(bs, active, before) == NeedSum(bs, active, now) + ExtraSum(active, before, now)
  {
    hide BlocksForTokens, Apart;
    if active != [] {
      var n := |active| - 1;
      GrownShorter(bs, active, n, before, now);
      NeedsFall(bs, active[..n], before, now);
      assert Grew1(bs, active[n], before, now);
    }
  }

  lemma {:induction false} ExtrasCard(bs: nat, active: seq<Active>, before: map<string, seq<BlockId>>,
                                      now: map<string, seq<BlockId>>)
    requires bs > 0 && Grown(bs, active, before, now)
    ensures |Extras(active, before, now)| == ExtraSum(active, before, now)
  {
    hide BlocksForTokens;
    if active != [] {
      var n := |active| - 1;
      GrownShorter(bs, active, n, before, now);
      ExtrasCard(bs, active[..n], before, now);
      LastExtra(bs, active, before, now);
      assert |Extras(active, before, now)| == |Extras(active[..n], before, now)| + |Elements(Extra(active[n], before, now))|;
    }
  }

  lemma LastExtra(bs: nat, active: seq<Active>, before: map<string, seq<BlockId>>, now: map<string, seq<BlockId>>)
    requires bs > 0 && active != [] && Grown(bs, active, before, now)
    ensures var n := |active| - 1;
      && Extras(active, before, now) == Extras(active[..n], before, now) + Elements(Extra(active[n], before, now))
      && Extras(active[..n], before, now) !! Elements(Extra(active[n], before, now))
      && |Elements(Extra(active[n], before, now))| == |Extra(active[n], before, now)|
  {
    hide BlocksForTokens, Grown, Extra;
    var n := |active| - 1;
    ExtrasSplit(active, before, now);
    assert Distinct(Extra(active[n], before, now)) by {
      ExtraDistinct(bs, active, before, now, n);
    }
    DistinctCard(Extra(active[n], before, now));
    forall x | x in Extras(active[..n], before, now) ensures x !in Elements(Extra(active[n], before, now)) {
      var i :| 0 <= i < n && x in Extra(active[..n][i], before, now);
      ExtrasApart(bs, active, before, now, i, n, x);
    }
  }

  lemma ExtraDistinct(bs: nat, active: seq<Active>, before: map<string, seq<BlockId>>, now: map<string, seq<BlockId>>, i: nat)
    requires bs > 0 && Grown(bs, active, before, now) && i < |active|
    ensures Distinct(Extra(active[i], before, now))
  {
    hide BlocksForTokens, Apart;
    assert Grew1(bs, active[i], before, now);
  }

  lemma ExtrasApart(bs: nat, active: seq<Active>, before: map<string, seq<BlockId>>, now: map<string, seq<BlockId>>, i: nat,
                    j: nat, x: BlockId)
    requires bs > 0 && Grown(bs, active, before, now) && i < j < |active| && x in Extra(active[i], before, now)
    ensures x !in Extra(active[j], before, now)
  {
    hide BlocksForTokens, Distinct;
    assert Apart(active[i], active[j], before, now) && Grew1(bs, active[j], before, now);
  }

  lemma ExtrasSplit(active: seq<Active>, before: map<string, seq<BlockId>>, now: map<string, seq<BlockId>>)
    requires active != []
    ensures var n := |active| - 1;
      Extras(active, before, now) == Extras(active[..n], before, now) + Elements(Extra(active[n], before, now))
  {
    hide Extra;
    var n := |active| - 1;
    forall x | x in Extras(active, before, now)
      ensures x in Extras(active[..n], before, now) + Elements(Extra(active[n], before, now))
    {
      var i :| 0 <= i < |active| && x in Extra(active[i], before, now);
      if i < n {
        assert active[..n][i] == active[i];
      }
    }
    forall x | x in Extras(active[..n], before, now) ensures x in Extras(active, before, now) {
      var i :| 0 <= i < n && x in Extra(active[..n][i], before, now);
      assert active[i] == active[..n][i];
    }
  }

  lemma HeldIsOldAndExtra(bs: nat, active: seq<Active>, before: map<string, seq<BlockId>>, now: map<string, seq<BlockId>>)
    requires bs > 0 && Grown(bs, active, before, now)
    ensures HeldBlocks(now, active) == HeldBlocks(before, active) + Extras(active, before, now)
    ensures HeldBlocks(before, active) !! Extras(active, before, now)
  {
    hide BlocksForTokens;
    forall i, x | 0 <= i < |active| && x in Extra(active[i], before, now) ensures x !in HeldBlocks(before, active) {
      ExtraIsNew(bs, active, before, now, i, x);
    }
    forall b ensures b in HeldBlocks(now, active) <==> b in HeldBlocks(before, active) || b in Extras(active, before, now) {
      HeldEither(bs, active, before, now, b);
    }
  }

  lemma ExtraIsNew(bs: nat, active: seq<Active>, before: map<string, seq<BlockId>>, now: map<string, seq<BlockId>>, i: nat,
                   x: BlockId)
    requires bs > 0 && Grown(bs, active, before, now) && i < |active| && x in Extra(active[i], before, now)
    ensures x !in HeldBlocks(before, active)
  {
    hide BlocksForTokens;
    forall j | 0 <= j < |active| && active[j].request.requestId in before
      ensures x !in before[active[j].request.requestId]
    {
      assert Grew1(bs, active[j], before, now);
      if i != j {
        assert Apart(active[i], active[j], before, now);
      }
    }
  }

  lemma HeldEither(bs: nat, active: seq<Active>, before: map<string, seq<BlockId>>, now: map<string, seq<BlockId>>, b: BlockId)
    requires bs > 0 && Grown(bs, active, before, now)
    ensures b in HeldBlocks(now, active) <==> b in HeldBlocks(before, active) || b in Extras(active, before, now)
  {
    hide BlocksForTokens, Apart;
    forall i | 0 <= i < |active|
      ensures var id := active[i].request.requestId;
        id in now && id in before && (b in now[id] <==> b in before[id] || b in Extra(active[i], before, now))
    {
      assert Grew1(bs, active[i], before, now);
      var id := active[i].request.requestId;
      assert now[id] == before[id] + now[id][|before[id]|..];
    }
  }

  /** Giving a member its next blocks moves its need into what it holds. */
  lemma DemandStays(bs: nat, active: seq<Active>, before: map<string, seq<BlockId>>, now: map<string, seq<BlockId>>)
    requires bs > 0 && Grown(bs, active, before, now)
    ensures Demand(bs, active, now) == Demand(bs, active, before)
  {
    hide HeldBlocks, NeedSum, Extras, ExtraSum, Grown;
    NeedsFall(bs, active, before, now);
    ExtrasCard(bs, active, before, now);
    HeldIsOldAndExtra(bs, active, before, now);
  }

  lemma GrownStart(bs: nat, active: seq<Active>, sequences: map<string, seq<BlockId>>)
    requires bs > 0
    requires forall i | 0 <= i < |active| ::
      active[i].request.requestId in sequences && Distinct(sequences[active[i].request.requestId])
    ensures Grown(bs, active, sequences, sequences)
  {
  }

  /** `now` is `before` with fresh blocks at the end of one sequence. */
  ghost predicate AppendsFresh(before: map<string, seq<BlockId>>, now: map<string, seq<BlockId>>, id: string) {
    && id in before && id in now && now == before[id := now[id]]
    && before[id] <= now[id] && Distinct(now[id])
    && forall k, x | k in before && x in now[id][|before[id]|..] :: x !in before[k]
  }

  lemma GrownStep(bs: nat, active: seq<Active>, before: map<string, seq<BlockId>>, middle: map<string, seq<BlockId>>,
                  now: map<string, seq<BlockId>>, i: nat)
    requires bs > 0 && IdsDistinct(active) && Grown(bs, active, before, middle) && i < |active|
    requires AppendsFresh(middle, now, active[i].request.requestId)
    requires |middle[active[i].request.requestId]| < |now[active[i].request.requestId]|
             == BlocksForTokens(Tokens(active[i]) + 1, bs)
    ensures Grown(bs, active, before, now)
  {
    hide BlocksForTokens;
    var id := active[i].request.requestId;
    assert Grew1(bs, active[i], before, middle) && middle[id] == before[id];
    forall j | 0 <= j < |active| ensures Grew1(bs, active[j], before, now) {
      assert Grew1(bs, active[j], before, middle);
    }
    forall j, k | 0 <= j < |active| && 0 <= k < |active| && j != k ensures Apart(active[j], active[k], before, now) {
      GrownApart(bs, active, before, middle, now, i, j, k);
    }
  }

  lemma GrownApart(bs: nat, active: seq<Active>, before: map<string, seq<BlockId>>, middle: map<string, seq<BlockId>>,
                   now: map<string, seq<BlockId>>, i: nat, j: nat, k: nat)
    requires bs > 0 && IdsDistinct(active) && Grown(bs, active, before, middle)
    requires i < |active| && j < |active| && k < |active| && j != k
    requires AppendsFresh(middle, now, active[i].request.requestId)
    requires middle[active[i].request.requestId] == before[active[i].request.requestId]
    ensures Apart(active[j], active[k], before, now)
  {
    hide BlocksForTokens;
    var id, u, w := active[i].request.requestId, active[j].request.requestId, active[k].request.requestId;
    assert Apart(active[j], active[k], before, middle) && Grew1(bs, active[k], before, middle);
    assert Grew1(bs, active[j], before, middle);
    assert u != w;
    if k == i {
      assert now[w] == middle[w] + now[w][|middle[w]|..];
      forall x | x in Extra(active[j], before, now) ensures x !in now[w] {
        assert now[u] == middle[u] && x in middle[u];
      }
    } else if j == i {
      assert Extra(active[j], before, now) == now[id][|middle[id]|..];
    }
  }

  lemma GrownRemove(bs: nat, active: seq<Active>, before: map<string, seq<BlockId>>, now: map<string, seq<BlockId>>, v: nat)
    requires bs > 0 && v < |active| && IdsDistinct(active) && Grown(bs, active, before, now)
    ensures Grown(bs, RemoveAt(active, v), before, now - {active[v].request.requestId})
  {
    hide BlocksForTokens, Distinct;
    var rest, now' := RemoveAt(active, v), now - {active[v].request.requestId};
    forall j | 0 <= j < |rest| ensures Grew1(bs, rest[j], before, now') && rest[j].request.requestId in now' {
      var k := if j < v then j else j + 1;
      assert rest[j] == active[k] && Grew1(bs, active[k], before, now);
    }
    forall i, j | 0 <= i < |rest| && 0 <= j < |rest| && i != j ensures Apart(rest[i], rest[j], before, now') {
      var k, m := if i < v then i else i + 1, if j < v then j else j + 1;
      assert rest[i] == active[k] && rest[j] == active[m] && Apart(active[k], active[m], before, now);
    }
  }

  lemma {:induction false} NeedInSum(bs: nat, active: seq<Active>, sequences: map<string, seq<BlockId>>, i: nat)
    requires bs > 0 && i < |active|
    ensures Need(bs, active[i], sequences) <= NeedSum(bs, active, sequences)
  {
    hide Need;
    if i < |active| - 1 {
      NeedInSum(bs, active[..|active| - 1], sequences, i);
    }
  }

  lemma {:induction false} NothingNeeded(bs: nat, active: seq<Active>, sequences: map<string, seq<BlockId>>)
    requires bs > 0 && Growing(bs, active, sequences, |active|)
    ensures NeedSum(bs, active, sequences) == 0
  {
    hide BlocksForTokens;
    if active != [] {
      var n := |active| - 1;
      assert Holds(bs, active[n], sequences, 1);
      NothingNeeded(bs, active[..n], sequences);
    }
  }

  // ---------------------------------------------------------------- demand and memory

  lemma AppendIsFresh(v: Kv, id: string, additional: nat)
    requires Consistent(v) && AppendVerdict(v, id, additional) == Allocated
    ensures AppendsFresh(v.sequences, AppendedView(v, id, additional).sequences, id)
  {
    hide FreeOk, CountsOk, InRange, Bump;
    var now := AppendedView(v, id, additional).sequences;
    var taken := Taken(v.freeList, additional);
    AppendedConsistent(v, id, additional);
    FreshBlocks(v, additional);
    assert now[id][|v.sequences[id]|..] == taken;
    forall k, x | k in v.sequences && x in taken ensures x !in v.sequences[k] {
      HeldIsLive(v, x);
    }
  }

  /** A batch whose members all have their next blocks fits, being in memory. */
  lemma GrownBatchFits(c: EngineConfig, v: Kv, active: seq<Active>)
    requires c.kvBlockSizeTokens > 0 && Consistent(v) && |v.refcounts| == c.kvBlocks
    requires Growing(c.kvBlockSizeTokens, active, v.sequences, |active|)
    ensures Demand(c.kvBlockSizeTokens, active, v.sequences) <= c.kvBlocks
  {
    hide Consistent, Growing, NeedSum;
    NothingNeeded(c.kvBlockSizeTokens, active, v.sequences);
    var held := HeldBlocks(v.sequences, active);
    forall b | b in held ensures b in Range(c.kvBlocks) {
      HeldIsLive(v, b);
    }
    SubsetSize(held, Range(c.kvBlocks));
  }

  lemma {:induction false} SubsetSize<T>(a: set<T>, b: set<T>)
    requires a <= b
    ensures |a| <= |b|
  {
    if a != {} {
      var x :| x in a;
      SubsetSize(a - {x}, b - {x});
    }
  }

  /** A member that cannot grow with no prefix cached shows that the batch demands too much. */
  lemma ShortOfBlocks(c: EngineConfig, v: Kv, active: seq<Active>, i: nat)
    requires c.kvBlockSizeTokens > 0 && Consistent(v) && v.pins == map[] && BatchOk(c, active, v.sequences)
    requires |v.refcounts| == c.kvBlocks && i < |active| && active[i].request.requestId in v.sequences
    requires |v.freeList| + |v.sequences[active[i].request.requestId]|
             < BlocksForTokens(Tokens(active[i]) + 1, c.kvBlockSizeTokens)
    ensures Demand(c.kvBlockSizeTokens, active, v.sequences) > c.kvBlocks
  {
    hide Consistent, BatchOk, NeedSum, HeldBlocks, BlocksForTokens;
    FreeIsUnheld(c, v, active);
    NeedInSum(c.kvBlockSizeTokens, active, v.sequences, i);
  }
}
