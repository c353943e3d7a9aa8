/**
 Reference-counted paged KV memory (cpp/src/paged_kv_cache.cpp).

 A block is held by every sequence and every pinned prefix that lists it. The invariant
 `Consistent` says that the stored reference counts are exactly those holder counts and that the
 free list is exactly, without repetition, the set of blocks nobody holds.
 */
module PagedKv {

  type BlockId = nat

  datatype AllocationStatus = Allocated | SequenceAlreadyExists | InvalidSharedBlock | InsufficientBlocks

  /** The four mutable fields of the cache, as one value. */
  datatype Kv = Kv(
    refcounts: seq<nat>,
    freeList: seq<BlockId>,
    sequences: map<string, seq<BlockId>>,
    pins: map<string, seq<BlockId>>)

  ghost predicate Distinct<T>(s: seq<T>) {
    forall i, j | 0 <= i < j < |s| :: s[i] != s[j]
  }

  ghost predicate InRange(s: seq<BlockId>, n: nat) {
    forall i | 0 <= i < |s| :: s[i] < n
  }

  ghost function Holders(m: map<string, seq<BlockId>>, b: BlockId): set<string> {
    set k | k in m && b in m[k]
  }

  ghost predicate ListsOk(m: map<string, seq<BlockId>>, n: nat) {
    forall k | k in m :: Distinct(m[k]) && InRange(m[k], n)
  }

  ghost predicate CountsOk(v: Kv) {
    forall b | 0 <= b < |v.refcounts| ::
      v.refcounts[b] == |Holders(v.sequences, b)| + |Holders(v.pins, b)|
  }

  ghost predicate FreeOk(refcounts: seq<nat>, freeList: seq<BlockId>) {
    && Distinct(freeList)
    && InRange(freeList, |refcounts|)
    && forall b | 0 <= b < |refcounts| :: b in freeList <==> refcounts[b] == 0
  }

  ghost predicate Consistent(v: Kv) {
    && ListsOk(v.sequences, |v.refcounts|)
    && ListsOk(v.pins, |v.refcounts|)
    && CountsOk(v)
    && FreeOk(v.refcounts, v.freeList)
  }

  // ---------------------------------------------------------------- the pure forms of the loops

  function Bump(refcounts: seq<nat>, blocks: seq<BlockId>): (r: seq<nat>)
    ensures |r| == |refcounts|
  {
    seq(|refcounts|, b requires 0 <= b < |refcounts| => refcounts[b] + if b in blocks then 1 else 0)
  }

  function Drop(refcounts: seq<nat>, blocks: seq<BlockId>): (r: seq<nat>)
    ensures |r| == |refcounts|
  {
    seq(|refcounts|, b requires 0 <= b < |refcounts| =>
      if b in blocks && refcounts[b] > 0 then refcounts[b] - 1 else refcounts[b])
  }

  /** The blocks of the list whose last reference goes away, in list order. */
  function Released(refcounts: seq<nat>, blocks: seq<BlockId>): seq<BlockId> {
    if blocks == [] then []
    else
      var last := blocks[|blocks| - 1];
      Released(refcounts, blocks[..|blocks| - 1])
      + if last < |refcounts| && refcounts[last] == 1 then [last] else []
  }

  function Reversed<T>(s: seq<T>): (r: seq<T>)
    ensures |r| == |s|
    ensures forall i | 0 <= i < |s| :: r[i] == s[|s| - 1 - i]
  {
    seq(|s|, i requires 0 <= i < |s| => s[|s| - 1 - i])
  }

  ghost predicate LiveAndDistinct(refcounts: seq<nat>, blocks: seq<BlockId>) {
    && Distinct(blocks)
    && forall i | 0 <= i < |blocks| :: blocks[i] < |refcounts| && refcounts[blocks[i]] > 0
  }

  ghost function AllocationVerdict(v: Kv, id: string, required: nat, shared: seq<BlockId>): AllocationStatus {
    if id in v.sequences then SequenceAlreadyExists
    else if |shared| > required || !LiveAndDistinct(v.refcounts, shared) then InvalidSharedBlock
    else if |v.freeList| < required - |shared| then InsufficientBlocks
    else Allocated
  }

  ghost function AppendVerdict(v: Kv, id: string, additional: nat): AllocationStatus {
    if id !in v.sequences then InvalidSharedBlock
    else if |v.freeList| < additional then InsufficientBlocks
    else Allocated
  }

  /** The `count` blocks popped from the back of a free list, in pop order. */
  function Taken(freeList: seq<BlockId>, count: nat): (r: seq<BlockId>)
    requires count <= |freeList|
    ensures |r| == count
  {
    Reversed(freeList[|freeList| - count..])
  }

  // ---------------------------------------------------------------- facts about holders and counts

  lemma HoldersInsert(m: map<string, seq<BlockId>>, k: string, blocks: seq<BlockId>, b: BlockId)
    requires k !in m
    ensures |Holders(m[k := blocks], b)| == |Holders(m, b)| + if b in blocks then 1 else 0
  {
    var m' := m[k := blocks];
    if b in blocks {
      assert Holders(m', b) == Holders(m, b) + {k};
    } else {
      assert Holders(m', b) == Holders(m, b);
    }
  }

  lemma HoldersRemove(m: map<string, seq<BlockId>>, k: string, b: BlockId)
    requires k in m
    ensures |Holders(m, b)| == |Holders(m - {k}, b)| + if b in m[k] then 1 else 0
  {
    var rest := m - {k};
    assert m == rest[k := m[k]];
    HoldersInsert(rest, k, m[k], b);
  }

  lemma HoldersExtend(m: map<string, seq<BlockId>>, k: string, extra: seq<BlockId>, b: BlockId)
    requires k in m && b !in m[k]
    ensures |Holders(m[k := m[k] + extra], b)| == |Holders(m, b)| + if b in extra then 1 else 0
  {
    var m' := m[k := m[k] + extra];
    if b in extra {
      assert Holders(m', b) == Holders(m, b) + {k};
    } else {
      assert Holders(m', b) == Holders(m, b);
    }
  }

  lemma HeldIsLive(v: Kv, b: BlockId)
    requires Consistent(v)
    ensures forall k | k in v.sequences && b in v.sequences[k] :: b < |v.refcounts| && v.refcounts[b] > 0
    ensures forall k | k in v.pins && b in v.pins[k] :: b < |v.refcounts| && v.refcounts[b] > 0
  {
    forall k | k in v.sequences && b in v.sequences[k]
      ensures b < |v.refcounts| && v.refcounts[b] > 0
    {
      assert k in Holders(v.sequences, b);
    }
    forall k | k in v.pins && b in v.pins[k]
      ensures b < |v.refcounts| && v.refcounts[b] > 0
    {
      assert k in Holders(v.pins, b);
    }
  }

  lemma {:induction false} ReleasedMembers(refcounts: seq<nat>, blocks: seq<BlockId>)
    requires Distinct(blocks)
    ensures forall b :: b in Released(refcounts, blocks) <==> b in blocks && b < |refcounts| && refcounts[b] == 1
    ensures Distinct(Released(refcounts, blocks))
  {
    if blocks != [] {
      var init, last := blocks[..|blocks| - 1], blocks[|blocks| - 1];
      ReleasedMembers(refcounts, init);
      assert blocks == init + [last];
      assert forall b :: b in blocks <==> b in init || b == last;
      assert last !in init;
      var r := Released(refcounts, init);
      assert last !in r;
    }
  }

  /** Extending a list with fresh blocks keeps it free of repetitions. */
  lemma DistinctAppend<T>(s: seq<T>, t: seq<T>)
    requires Distinct(s) && Distinct(t)
    requires forall x | x in s :: x !in t
    ensures Distinct(s + t)
  {
    var u := s + t;
    forall i, j | 0 <= i < j < |u| ensures u[i] != u[j] {
      if i < |s| <= j {
        assert u[i] in s && u[j] in t;
      }
    }
  }

  /** Taken blocks and the rest share out the free list. */
  lemma TakenShares(freeList: seq<BlockId>, count: nat)
    requires Distinct(freeList) && count <= |freeList|
    ensures Distinct(Taken(freeList, count)) && Distinct(freeList[..|freeList| - count])
    ensures forall b :: b in freeList <==> b in freeList[..|freeList| - count] || b in Taken(freeList, count)
    ensures forall b | b in freeList[..|freeList| - count] :: b !in Taken(freeList, count)
  {
    var n := |freeList| - count;
    var taken, rest := Taken(freeList, count), freeList[..n];
    assert forall i | 0 <= i < count :: taken[i] == freeList[n + (count - 1 - i)];
    forall b | b in freeList ensures b in rest || b in taken {
      var i :| 0 <= i < |freeList| && freeList[i] == b;
      assert if i < n then rest[i] == b else taken[count - 1 - (i - n)] == b;
    }
    assert forall b | b in rest || b in taken :: b in freeList;
  }

  lemma TakenFacts(refcounts: seq<nat>, freeList: seq<BlockId>, count: nat)
    requires FreeOk(refcounts, freeList) && count <= |freeList|
    ensures Distinct(Taken(freeList, count)) && InRange(Taken(freeList, count), |refcounts|)
    ensures forall b | b in Taken(freeList, count) :: b < |refcounts| && refcounts[b] == 0
    ensures FreeOk(Bump(refcounts, Taken(freeList, count)), freeList[..|freeList| - count])
  {
    hide Taken, Distinct;
    TakenShares(freeList, count);
    var taken := Taken(freeList, count);
    forall b | b in taken ensures b < |refcounts| && refcounts[b] == 0 {
      assert b in freeList;
    }
    assert forall i | 0 <= i < |taken| :: taken[i] in taken;
  }

  /** Bumping twice with disjoint lists is bumping once with the concatenation. */
  lemma BumpTwice(refcounts: seq<nat>, s: seq<BlockId>, t: seq<BlockId>)
    requires forall x | x in s :: x !in t
    ensures Bump(Bump(refcounts, s), t) == Bump(refcounts, s + t)
  {
    assert forall b :: b in s + t <==> b in s || b in t;
  }

  // ---------------------------------------------------------------- each update keeps Consistent

  /** The cache after a successful Allocate. */
  ghost function AllocatedView(v: Kv, id: string, required: nat, shared: seq<BlockId>): Kv
    requires AllocationVerdict(v, id, required, shared) == Allocated
  {
    var count := required - |shared|;
    var blocks := shared + Taken(v.freeList, count);
    Kv(Bump(v.refcounts, blocks), v.freeList[..|v.freeList| - count], v.sequences[id := blocks], v.pins)
  }

  lemma AllocatedConsistent(v: Kv, id: string, required: nat, shared: seq<BlockId>)
    requires Consistent(v)
    requires AllocationVerdict(v, id, required, shared) == Allocated
    ensures Consistent(AllocatedView(v, id, required, shared))
    ensures forall b | b in shared :: b !in Taken(v.freeList, required - |shared|)
  {
    var count := required - |shared|;
    var taken := Taken(v.freeList, count);
    TakenFacts(v.refcounts, v.freeList, count);
    var blocks := shared + taken;
    DistinctAppend(shared, taken);
    var v' := AllocatedView(v, id, required, shared);
    forall b | 0 <= b < |v.refcounts|
      ensures v'.refcounts[b] == |Holders(v'.sequences, b)| + |Holders(v'.pins, b)|
    {
      HoldersInsert(v.sequences, id, blocks, b);
    }
    forall b | 0 <= b < |v.refcounts| ensures b in v'.freeList <==> v'.refcounts[b] == 0 {
      if b in shared {
        assert v.refcounts[b] > 0 && b !in v.freeList;
      }
      assert Bump(v.refcounts, taken)[b] == 0 <==> b in v'.freeList;
    }
  }

  ghost function AppendedView(v: Kv, id: string, additional: nat): Kv
    requires AppendVerdict(v, id, additional) == Allocated
  {
    var taken := Taken(v.freeList, additional);
    Kv(Bump(v.refcounts, taken), v.freeList[..|v.freeList| - additional],
       v.sequences[id := v.sequences[id] + taken], v.pins)
  }

  lemma AppendedConsistent(v: Kv, id: string, additional: nat)
    requires Consistent(v)
    requires AppendVerdict(v, id, additional) == Allocated
    ensures Consistent(AppendedView(v, id, additional))
  {
    var taken := Taken(v.freeList, additional);
    TakenFacts(v.refcounts, v.freeList, additional);
    var v' := AppendedView(v, id, additional);
    forall b | b in v.sequences[id] ensures b !in taken {
      HeldIsLive(v, b);
    }
    DistinctAppend(v.sequences[id], taken);
    forall b | 0 <= b < |v.refcounts|
      ensures v'.refcounts[b] == |Holders(v'.sequences, b)| + |Holders(v'.pins, b)|
    {
      if b in v.sequences[id] {
        assert Holders(v'.sequences, b) == Holders(v.sequences, b);
      } else {
        HoldersExtend(v.sequences, id, taken, b);
      }
    }
  }

  ghost function PinnedView(v: Kv, key: string, blocks: seq<BlockId>): Kv {
    v.(refcounts := Bump(v.refcounts, blocks), pins := v.pins[key := blocks])
  }

  lemma PinnedConsistent(v: Kv, key: string, blocks: seq<BlockId>)
    requires Consistent(v) && key !in v.pins && LiveAndDistinct(v.refcounts, blocks)
    ensures Consistent(PinnedView(v, key, blocks))
  {
    var v' := PinnedView(v, key, blocks);
    forall b | 0 <= b < |v.refcounts|
      ensures v'.refcounts[b] == |Holders(v'.sequences, b)| + |Holders(v'.pins, b)|
    {
      HoldersInsert(v.pins, key, blocks, b);
    }
  }

  lemma DropFreeOk(refcounts: seq<nat>, freeList: seq<BlockId>, blocks: seq<BlockId>)
    requires FreeOk(refcounts, freeList) && LiveAndDistinct(refcounts, blocks)
    ensures FreeOk(Drop(refcounts, blocks), freeList + Released(refcounts, blocks))
  {
    ReleasedMembers(refcounts, blocks);
    var r := Released(refcounts, blocks);
    DistinctAppend(freeList, r);
    var list := freeList + r;
    forall i | 0 <= i < |list| ensures list[i] < |refcounts| {
      assert list[i] in freeList || list[i] in r;
    }
  }

  ghost function FreedView(v: Kv, id: string): Kv
    requires id in v.sequences
  {
    var blocks := v.sequences[id];
    Kv(Drop(v.refcounts, blocks), v.freeList + Released(v.refcounts, blocks), v.sequences - {id}, v.pins)
  }

  ghost function UnpinnedView(v: Kv, key: string): Kv
    requires key in v.pins
  {
    var blocks := v.pins[key];
    Kv(Drop(v.refcounts, blocks), v.freeList + Released(v.refcounts, blocks), v.sequences, v.pins - {key})
  }

  lemma ListsAreLive(v: Kv)
    requires Consistent(v)
    ensures forall k | k in v.sequences :: LiveAndDistinct(v.refcounts, v.sequences[k])
    ensures forall k | k in v.pins :: LiveAndDistinct(v.refcounts, v.pins[k])
  {
    forall b { HeldIsLive(v, b); }
  }

  lemma FreedConsistent(v: Kv, id: string)
    requires Consistent(v) && id in v.sequences
    ensures Consistent(FreedView(v, id))
  {
    ListsAreLive(v);
    DropFreeOk(v.refcounts, v.freeList, v.sequences[id]);
    var v' := FreedView(v, id);
    forall b | 0 <= b < |v.refcounts|
      ensures v'.refcounts[b] == |Holders(v'.sequences, b)| + |Holders(v'.pins, b)|
    {
      HoldersRemove(v.sequences, id, b);
    }
  }

  lemma UnpinnedConsistent(v: Kv, key: string)
    requires Consistent(v) && key in v.pins
    ensures Consistent(UnpinnedView(v, key))
  {
    ListsAreLive(v);
    DropFreeOk(v.refcounts, v.freeList, v.pins[key]);
    var v' := UnpinnedView(v, key);
    forall b | 0 <= b < |v.refcounts|
      ensures v'.refcounts[b] == |Holders(v'.sequences, b)| + |Holders(v'.pins, b)|
    {
      HoldersRemove(v.pins, key, b);
    }
  }

  // ---------------------------------------------------------------- how much memory is left

  ghost function Elements<T>(s: seq<T>): set<T> {
    set x | x in s
  }

  lemma {:induction false} DistinctCard<T>(s: seq<T>)
    requires Distinct(s)
    ensures |Elements(s)| == |s|
  {
    if s != [] {
      var init, last := s[..|s| - 1], s[|s| - 1];
      DistinctCard(init);
      assert s == init + [last];
      assert Elements(s) == Elements(init) + {last};
    }
  }

  ghost function Range(n: nat): (r: set<nat>)
    ensures forall b :: b in r <==> 0 <= b < n
    ensures |r| == n
  {
    if n == 0 then {} else Range(n - 1) + {n - 1}
  }

  lemma HoldersOfOne(m: map<string, seq<BlockId>>, id: string, b: BlockId)
    requires m.Keys == {id}
    ensures |Holders(m, b)| == if b in m[id] then 1 else 0
  {
    assert Holders(m, b) == if b in m[id] then {id} else {};
  }

  /** Free and held blocks partition memory, if no block is both and every block is one of them. */
  lemma Partition(n: nat, free: seq<BlockId>, held: seq<BlockId>)
    requires Distinct(free) && InRange(free, n) && Distinct(held) && InRange(held, n)
    requires forall b | 0 <= b < n :: b in free <==> b !in held
    ensures |free| + |held| == n
  {
    DistinctCard(free);
    DistinctCard(held);
    assert Elements(free) !! Elements(held);
    assert Range(n) == Elements(free) + Elements(held);
  }

  lemma PartitionSet(n: nat, free: seq<BlockId>, held: set<BlockId>)
    requires Distinct(free) && InRange(free, n) && forall b | b in held :: 0 <= b < n
    requires forall b | 0 <= b < n :: b in free <==> b !in held
    ensures |free| + |held| == n
  {
    DistinctCard(free);
    assert Elements(free) !! held;
    assert Range(n) == Elements(free) + held;
  }

  lemma NoPins(b: BlockId)
    ensures |Holders(map[], b)| == 0
  {
    assert Holders(map[], b) == {};
  }

  /** Free blocks and blocks of the only holder partition memory. */
  lemma SoleHolder(v: Kv, id: string)
    requires Consistent(v)
    requires v.sequences.Keys == {id} && v.pins == map[]
    ensures |v.freeList| + |v.sequences[id]| == |v.refcounts|
  {
    hide Distinct, InRange, Holders;
    forall b | 0 <= b < |v.refcounts| ensures b in v.freeList <==> b !in v.sequences[id] {
      HoldersOfOne(v.sequences, id, b);
      NoPins(b);
    }
    Partition(|v.refcounts|, v.freeList, v.sequences[id]);
  }

  /** With no holder at all, every block is free. */
  lemma NoHolder(v: Kv)
    requires Consistent(v)
    requires v.sequences == map[] && v.pins == map[]
    ensures |v.freeList| == |v.refcounts|
  {
    hide InRange, Holders;
    forall b | 0 <= b < |v.refcounts| ensures b in v.freeList {
      NoPins(b);
    }
    Partition(|v.refcounts|, v.freeList, []);
  }

  // ---------------------------------------------------------------- whole runs

  datatype KvCall =
    | CallAllocate(id: string, required: nat, shared: seq<BlockId>)
    | CallAppend(id: string, additional: nat)
    | CallFree(id: string)
    | CallPin(key: string, blocks: seq<BlockId>)
    | CallUnpin(key: string)

  /** What a call makes of the cache; a refused call leaves it as it was. */
  ghost function AfterCall(v: Kv, call: KvCall): Kv {
    match call
    case CallAllocate(id, required, shared) =>
      if AllocationVerdict(v, id, required, shared) == Allocated then AllocatedView(v, id, required, shared) else v
    case CallAppend(id, additional) =>
      if AppendVerdict(v, id, additional) == Allocated then AppendedView(v, id, additional) else v
    case CallFree(id) => if id in v.sequences then FreedView(v, id) else v
    case CallPin(key, blocks) =>
      if key !in v.pins && blocks != [] && LiveAndDistinct(v.refcounts, blocks) then PinnedView(v, key, blocks) else v
    case CallUnpin(key) => if key in v.pins then UnpinnedView(v, key) else v
  }

  ghost function AfterCalls(v: Kv, calls: seq<KvCall>): Kv {
    if calls == [] then v else AfterCall(AfterCalls(v, calls[..|calls| - 1]), calls[|calls| - 1])
  }

  /** After any calls each count is the number of holders, and the free list is exactly the blocks nobody holds. */
  lemma {:induction false} RunsStayConsistent(v: Kv, calls: seq<KvCall>)
    requires Consistent(v)
    ensures Consistent(AfterCalls(v, calls)) && |AfterCalls(v, calls).refcounts| == |v.refcounts|
  {
    if calls != [] {
      hide Consistent, AllocatedView, AppendedView, FreedView, PinnedView, UnpinnedView, AllocationVerdict, AppendVerdict,
           LiveAndDistinct;
      RunsStayConsistent(v, calls[..|calls| - 1]);
      CallKeeps(AfterCalls(v, calls[..|calls| - 1]), calls[|calls| - 1]);
    }
  }

  lemma CallKeeps(v: Kv, call: KvCall)
    requires Consistent(v)
    ensures Consistent(AfterCall(v, call)) && |AfterCall(v, call).refcounts| == |v.refcounts|
  {
    hide Consistent, Bump, Drop, Released, Taken;
    match call
    case CallAllocate(id, required, shared) =>
      if AllocationVerdict(v, id, required, shared) == Allocated {
        AllocatedConsistent(v, id, required, shared);
      }
    case CallAppend(id, additional) =>
      if AppendVerdict(v, id, additional) == Allocated {
        AppendedConsistent(v, id, additional);
      }
    case CallFree(id) =>
      if id in v.sequences {
        FreedConsistent(v, id);
      }
    case CallPin(key, blocks) =>
      if key !in v.pins && blocks != [] && LiveAndDistinct(v.refcounts, blocks) {
        PinnedConsistent(v, key, blocks);
      }
    case CallUnpin(key) =>
      if key in v.pins {
        UnpinnedConsistent(v, key);
      }
  }

  // ---------------------------------------------------------------- the allocator

  class PagedKvCache {
    const blockSizeTokens: nat
    var refcounts: seq<nat>
    var freeList: seq<BlockId>
    var sequences: map<string, seq<BlockId>>
    var pins: map<string, seq<BlockId>>

    ghost function View(): Kv
      reads this
    {
      Kv(refcounts, freeList, sequences, pins)
    }

    ghost predicate Valid()
      reads this
    {
      blockSizeTokens > 0 && Consistent(View())
    }

    constructor (blockCount: nat, blockSizeTokens: nat)
      requires blockSizeTokens > 0
      ensures Valid()
      ensures this.blockSizeTokens == blockSizeTokens
      ensures |refcounts| == blockCount && sequences == map[] && pins == map[]
      ensures |freeList| == blockCount && forall i | 0 <= i < blockCount :: freeList[i] == blockCount - 1 - i
    {
      this.blockSizeTokens := blockSizeTokens;
      refcounts := seq(blockCount, _ => 0);
      freeList := [];
      sequences, pins := map[], map[];
      new;
      var index := blockCount;
      while index > 0
        invariant 0 <= index <= blockCount
        invariant freeList == seq(blockCount - index, i => blockCount - 1 - i)
        invariant refcounts == seq(blockCount, _ => 0) && sequences == map[] && pins == map[]
      {
        freeList := freeList + [index - 1];
        index := index - 1;
      }
      forall b | 0 <= b < blockCount ensures b in freeList {
        assert freeList[blockCount - 1 - b] == b;
      }
      assert forall b :: Holders(map[], b) == {};
    }

    method AllLiveAndDistinct(blocks: seq<BlockId>) returns (ok: bool)
      ensures ok <==> LiveAndDistinct(refcounts, blocks)
    {
      var unique: set<BlockId> := {};
      for i := 0 to |blocks|
        invariant unique == Elements(blocks[..i])
        invariant LiveAndDistinct(refcounts, blocks[..i])
      {
        if blocks[i] >= |refcounts| || refcounts[blocks[i]] == 0 || blocks[i] in unique {
          if blocks[i] in unique {
            assert blocks[i] in blocks[..i];
          }
          return false;
        }
        unique := unique + {blocks[i]};
        assert blocks[..i + 1] == blocks[..i] + [blocks[i]];
      }
      assert blocks[..|blocks|] == blocks;
      return true;
    }

    method AddReferences(blocks: seq<BlockId>)
      requires Distinct(blocks) && InRange(blocks, |refcounts|)
      modifies `refcounts
      ensures refcounts == Bump(old(refcounts), blocks)
    {
      for i := 0 to |blocks|
        invariant refcounts == Bump(old(refcounts), blocks[..i])
      {
        assert blocks[i] !in blocks[..i];
        assert blocks[..i + 1] == blocks[..i] + [blocks[i]];
        refcounts := refcounts[blocks[i] := refcounts[blocks[i]] + 1];
      }
      assert blocks[..|blocks|] == blocks;
    }

    method TakeFree(count: nat) returns (taken: seq<BlockId>)
      requires FreeOk(refcounts, freeList) && count <= |freeList|
      modifies `refcounts, `freeList
      ensures taken == Taken(old(freeList), count)
      ensures freeList == old(freeList)[..|old(freeList)| - count]
      ensures refcounts == Bump(old(refcounts), taken)
    {
      ghost var list, refs := freeList, refcounts;
      taken := [];
      for n := 0 to count
        invariant freeList == list[..|list| - n]
        invariant taken == Taken(list, n)
        invariant refcounts == Bump(refs, taken)
      {
        var block := freeList[|freeList| - 1];
        TakenFacts(refs, list, n + 1);
        assert Taken(list, n + 1) == taken + [block];
        assert block !in taken by {
          assert Taken(list, n + 1)[n] == block;
        }
        freeList := freeList[..|freeList| - 1];
        refcounts := refcounts[block := 1];
        assert block in Taken(list, n + 1);
        taken := taken + [block];
      }
    }

    /** The release loop of Free and UnpinPrefix. */
    method DropReferences(blocks: seq<BlockId>)
      requires LiveAndDistinct(refcounts, blocks)
      modifies `refcounts, `freeList
      ensures refcounts == Drop(old(refcounts), blocks)
      ensures freeList == old(freeList) + Released(old(refcounts), blocks)
    {
      ghost var refs := refcounts;
      for i := 0 to |blocks|
        invariant refcounts == Drop(refs, blocks[..i])
        invariant freeList == old(freeList) + Released(refs, blocks[..i])
      {
        var block := blocks[i];
        assert block !in blocks[..i];
        assert blocks[..i + 1] == blocks[..i] + [block];
        assert refcounts[block] == refs[block];
        assert blocks[..i + 1][..i] == blocks[..i];
        refcounts := refcounts[block := refcounts[block] - 1];
        if refcounts[block] == 0 {
          freeList := freeList + [block];
        }
      }
      assert blocks[..|blocks|] == blocks;
    }

    /** All-or-nothing: the verdict decides, and a refusal changes nothing. */
    method Allocate(id: string, required: nat, shared: seq<BlockId>) returns (status: AllocationStatus)
      requires Valid()
      modifies this
      ensures Valid()
      ensures status == AllocationVerdict(old(View()), id, required, shared)
      ensures View() == if status == Allocated then AllocatedView(old(View()), id, required, shared) else old(View())
    {
      if id in sequences {
        return SequenceAlreadyExists;
      }
      if |shared| > required {
        return InvalidSharedBlock;
      }
      var ok := AllLiveAndDistinct(shared);
      if !ok {
        return InvalidSharedBlock;
      }
      var count := required - |shared|;
      if |freeList| < count {
        return InsufficientBlocks;
      }
      AllocatedConsistent(View(), id, required, shared);
      assert FreeOk(Bump(refcounts, shared), freeList);
      AddReferences(shared);
      var taken := TakeFree(count);
      BumpTwice(old(refcounts), shared, taken);
      sequences := sequences[id := shared + taken];
      return Allocated;
    }

    method Free(id: string) returns (found: bool)
      requires Valid()
      modifies this
      ensures Valid()
      ensures found <==> id in old(sequences)
      ensures View() == if found then FreedView(old(View()), id) else old(View())
    {
      if id !in sequences {
        return false;
      }
      ListsAreLive(View());
      FreedConsistent(View(), id);
      DropReferences(sequences[id]);
      sequences := sequences - {id};
      return true;
    }

    method AppendBlocks(id: string, additional: nat) returns (status: AllocationStatus)
      requires Valid()
      modifies this
      ensures Valid()
      ensures status == AppendVerdict(old(View()), id, additional)
      ensures View() == if status == Allocated then AppendedView(old(View()), id, additional) else old(View())
    {
      if id !in sequences {
        return InvalidSharedBlock;
      }
      if |freeList| < additional {
        return InsufficientBlocks;
      }
      AppendedConsistent(View(), id, additional);
      var taken := TakeFree(additional);
      sequences := sequences[id := sequences[id] + taken];
      return Allocated;
    }

    method PinPrefix(key: string, blocks: seq<BlockId>) returns (pinned: bool)
      requires Valid()
      modifies this
      ensures Valid()
      ensures pinned <==> key !in old(pins) && blocks != [] && LiveAndDistinct(old(refcounts), blocks)
      ensures View() == if pinned then PinnedView(old(View()), key, blocks) else old(View())
    {
      if key in pins || blocks == [] {
        return false;
      }
      var ok := AllLiveAndDistinct(blocks);
      if !ok {
        return false;
      }
      PinnedConsistent(View(), key, blocks);
      AddReferences(blocks);
      pins := pins[key := blocks];
      return true;
    }

    method UnpinPrefix(key: string) returns (found: bool)
      requires Valid()
      modifies this
      ensures Valid()
      ensures found <==> key in old(pins)
      ensures View() == if found then UnpinnedView(old(View()), key) else old(View())
    {
      if key !in pins {
        return false;
      }
      ListsAreLive(View());
      UnpinnedConsistent(View(), key);
      DropReferences(pins[key]);
      pins := pins - {key};
      return true;
    }

    /** One loop of CheckInvariants: counts the holders of every block, or finds a malformed list. */
    method CountHolders(lists: map<string, seq<BlockId>>, base: seq<nat>) returns (ok: bool, observed: seq<nat>)
      requires |base| == |refcounts|
      ensures ok <==> ListsOk(lists, |base|)
      ensures |observed| == |base|
      ensures ok ==> forall b | 0 <= b < |base| :: observed[b] == base[b] + |Holders(lists, b)|
    {
      observed := base;
      var rest := lists.Keys;
      ghost var done: map<string, seq<BlockId>> := map[];
      assert forall b :: Holders(done, b) == {};
      while rest != {}
        invariant rest <= lists.Keys
        invariant done == lists - rest
        invariant ListsOk(done, |base|)
        invariant |observed| == |base|
        invariant forall b | 0 <= b < |base| :: observed[b] == base[b] + |Holders(done, b)|
        decreases rest
      {
        var k :| k in rest;
        var good, next := CountList(lists[k], observed);
        if !good {
          return false, observed;
        }
        forall b | 0 <= b < |base|
          ensures next[b] == base[b] + |Holders(done[k := lists[k]], b)|
        {
          HoldersInsert(done, k, lists[k], b);
        }
        observed := next;
        rest := rest - {k};
        done := done[k := lists[k]];
      }
      assert done == lists;
      return true, observed;
    }

    method CountList(blocks: seq<BlockId>, base: seq<nat>) returns (ok: bool, observed: seq<nat>)
      ensures ok <==> Distinct(blocks) && InRange(blocks, |base|)
      ensures |observed| == |base|
      ensures ok ==> observed == Bump(base, blocks)
    {
      observed := base;
      var unique: set<BlockId> := {};
      for i := 0 to |blocks|
        invariant unique == Elements(blocks[..i])
        invariant Distinct(blocks[..i]) && InRange(blocks[..i], |base|)
        invariant observed == Bump(base, blocks[..i])
      {
        if blocks[i] >= |base| || blocks[i] in unique {
          if blocks[i] in unique {
            assert blocks[i] in blocks[..i];
          }
          return false, observed;
        }
        unique := unique + {blocks[i]};
        assert blocks[..i + 1] == blocks[..i] + [blocks[i]];
        observed := observed[blocks[i] := observed[blocks[i]] + 1];
      }
      assert blocks[..|blocks|] == blocks;
      return true, observed;
    }

    method MarkFree() returns (ok: bool, observedFree: seq<bool>)
      ensures ok <==> Distinct(freeList) && InRange(freeList, |refcounts|)
      ensures ok ==> |observedFree| == |refcounts| && forall b | 0 <= b < |refcounts| :: observedFree[b] <==> b in freeList
    {
      observedFree := seq(|refcounts|, _ => false);
      for i := 0 to |freeList|
        invariant |observedFree| == |refcounts|
        invariant Distinct(freeList[..i]) && InRange(freeList[..i], |refcounts|)
        invariant forall b | 0 <= b < |refcounts| :: observedFree[b] <==> b in freeList[..i]
      {
        if freeList[i] >= |refcounts| || observedFree[freeList[i]] {
          return false, observedFree;
        }
        assert freeList[..i + 1] == freeList[..i] + [freeList[i]];
        observedFree := observedFree[freeList[i] := true];
      }
      assert freeList[..|freeList|] == freeList;
      return true, observedFree;
    }

    /** The run-time checker decides the invariant exactly, so it accepts every reachable state. */
    method CheckInvariants() returns (ok: bool)
      ensures ok <==> Consistent(View())
    {
      var ok1, refs := CountHolders(sequences, seq(|refcounts|, _ => 0));
      if !ok1 {
        return false;
      }
      var ok2, observed := CountHolders(pins, refs);
      if !ok2 {
        return false;
      }
      var ok3, observedFree := MarkFree();
      if !ok3 {
        return false;
      }
      for b := 0 to |refcounts|
        invariant forall c | 0 <= c < b :: observed[c] == refcounts[c] && (refcounts[c] == 0 <==> observedFree[c])
      {
        if observed[b] != refcounts[b] || (refcounts[b] == 0) != observedFree[b] {
          return false;
        }
      }
      return true;
    }
  }
}
