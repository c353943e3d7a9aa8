/**
 The materialised prefix cache (cpp/src/prefix_cache.cpp): every cached prefix is an entry of its own,
 keyed by one string and holding the whole block list. The radix tree replaces it; without eviction the
 two answer every query alike.
 */
module PrefixCaching {
  import opened Arithmetic
  import opened Text
  import opened PagedKv
  import opened ResultCaching
  import opened RadixTree
  import opened RadixCache

  // ---------------------------------------------------------------- keys

  function HashTail(hashes: seq<string>): string {
    if hashes == [] then ""
    else ['|'] + (Decimal(|hashes[0]|) + [':'] + (hashes[0] + HashTail(hashes[1..])))
  }

  function BlockPrefixKey(ns: string, hashes: seq<string>): string {
    "blocks|" + (Decimal(|ns|) + [':'] + (ns + HashTail(hashes)))
  }

  lemma ColonIsNoDigit()
    ensures !IsDigit(':')
  {
  }

  /** A length in front of a string tells where it ends. */
  lemma SizedSplits(a: string, b: string, x: string, y: string)
    requires Decimal(|a|) + [':'] + (a + x) == Decimal(|b|) + [':'] + (b + y)
    ensures a == b && x == y
  {
    hide Decimal, IsDigit;
    ColonIsNoDigit();
    DecimalThenDelimiter(|a|, |b|, ':', a + x, b + y);
    assert a == (a + x)[..|a|] == (b + y)[..|b|] == b;
    assert x == (a + x)[|a|..] == (b + y)[|b|..] == y;
  }

  lemma {:induction false} HashTailInjective(a: seq<string>, b: seq<string>)
    requires HashTail(a) == HashTail(b)
    ensures a == b
  {
    if a != [] && b != [] {
      var x, y := Decimal(|a[0]|) + [':'] + (a[0] + HashTail(a[1..])), Decimal(|b[0]|) + [':'] + (b[0] + HashTail(b[1..]));
      assert x == (['|'] + x)[1..] && y == (['|'] + y)[1..];
      SizedSplits(a[0], b[0], HashTail(a[1..]), HashTail(b[1..]));
      HashTailInjective(a[1..], b[1..]);
    }
  }

  /** The key determines namespace and hash list, for arbitrary strings. */
  lemma BlockPrefixKeyInjective(p: Path, q: Path)
    requires BlockPrefixKey(p.ns, p.hashes) == BlockPrefixKey(q.ns, q.hashes)
    ensures p == q
  {
    hide Decimal, HashTail;
    var prefix := "blocks|";
    var x, y := Decimal(|p.ns|) + [':'] + (p.ns + HashTail(p.hashes)), Decimal(|q.ns|) + [':'] + (q.ns + HashTail(q.hashes));
    assert x == (prefix + x)[|prefix|..] == (prefix + y)[|prefix|..] == y;
    SizedSplits(p.ns, q.ns, HashTail(p.hashes), HashTail(q.hashes));
    HashTailInjective(p.hashes, q.hashes);
  }

  // ---------------------------------------------------------------- values

  /** The entries after putting the first `n` prefixes, with room for all of them. */
  function PutAll(entries: map<string, seq<BlockId>>, ns: string, hashes: seq<string>, blocks: seq<BlockId>, n: nat)
      : map<string, seq<BlockId>>
    requires n <= |hashes| && n <= |blocks|
  {
    if n == 0 then entries
    else
      var e := PutAll(entries, ns, hashes, blocks, n - 1);
      var key := BlockPrefixKey(ns, hashes[..n]);
      if key in e then e else e[key := blocks[..n]]
  }

  /** `n` is the longest cached prefix, whether or not shorter ones are cached. */
  ghost predicate LongestKey(entries: map<string, seq<BlockId>>, ns: string, hashes: seq<string>, n: nat) {
    && n <= |hashes|
    && (n > 0 ==> BlockPrefixKey(ns, hashes[..n]) in entries)
    && (forall k | n < k <= |hashes| :: BlockPrefixKey(ns, hashes[..k]) !in entries)
  }

  /** The cache and the allocator it pins blocks in, as one value. */
  datatype Cached = Cached(recency: seq<string>, entries: map<string, seq<BlockId>>, kv: Kv)

  /** Whether Put reports success: a known key with these very blocks, or a new one whose blocks can be pinned. */
  ghost predicate PutOk(c: Cached, key: string, blocks: seq<BlockId>) {
    if key in c.entries then c.entries[key] == blocks
    else key !in c.kv.pins && blocks != [] && LiveAndDistinct(c.kv.refcounts, blocks)
  }

  ghost function AfterPut(c: Cached, capacity: nat, key: string, blocks: seq<BlockId>): Cached {
    if key in c.entries then c.(recency := Front(c.recency, key))
    else if !PutOk(c, key, blocks) then c
    else Admitted(c.(kv := PinnedView(c.kv, key, blocks)), capacity, key, blocks)
  }

  /** A pinned key goes to the front; at capacity the key at the back loses its entry and its pin. */
  ghost function Admitted(c: Cached, capacity: nat, key: string, blocks: seq<BlockId>): Cached {
    if c.recency != [] && |c.recency| == capacity then
      var rest, last := c.recency[..|c.recency| - 1], c.recency[|c.recency| - 1];
      Cached([key] + rest, (c.entries - {last})[key := blocks],
             if last in c.kv.pins then UnpinnedView(c.kv, last) else c.kv)
    else c.(recency := [key] + c.recency, entries := c.entries[key := blocks])
  }

  /** The first `n` puts of PutBlockPrefixes, and how many of them succeed. */
  ghost function AfterPuts(c: Cached, capacity: nat, ns: string, hashes: seq<string>, blocks: seq<BlockId>, n: nat): Cached
    requires n <= |hashes| && n <= |blocks|
  {
    if n == 0 then c
    else AfterPut(AfterPuts(c, capacity, ns, hashes, blocks, n - 1), capacity, BlockPrefixKey(ns, hashes[..n]), blocks[..n])
  }

  ghost function PutCount(c: Cached, capacity: nat, ns: string, hashes: seq<string>, blocks: seq<BlockId>, n: nat): nat
    requires n <= |hashes| && n <= |blocks|
  {
    if n == 0 then 0
    else
      var before := AfterPuts(c, capacity, ns, hashes, blocks, n - 1);
      PutCount(c, capacity, ns, hashes, blocks, n - 1)
      + if PutOk(before, BlockPrefixKey(ns, hashes[..n]), blocks[..n]) then 1 else 0
  }

  ghost predicate CachedOk(c: Cached, capacity: nat) {
    && Distinct(c.recency) && (forall k :: k in c.entries <==> k in c.recency)
    && |c.recency| <= capacity && c.kv.pins == c.entries
  }

  lemma FrontKeeps(c: Cached, capacity: nat, key: string)
    requires CachedOk(c, capacity) && key in c.entries
    ensures CachedOk(c.(recency := Front(c.recency, key)), capacity)
    ensures |Front(c.recency, key)| == |c.recency|
  {
    WithoutFacts(c.recency, key);
    FrontMembers(c.recency, key);
  }

  lemma WithoutLast(s: seq<string>)
    requires s != [] && Distinct(s)
    ensures Distinct(s[..|s| - 1]) && forall k :: k in s[..|s| - 1] <==> k in s && k != s[|s| - 1]
  {
    assert s == s[..|s| - 1] + [s[|s| - 1]];
  }

  lemma Listed(recency: seq<string>, entries: map<string, seq<BlockId>>, key: string, blocks: seq<BlockId>)
    requires Distinct(recency) && (forall k :: k in entries <==> k in recency) && key !in entries
    ensures Distinct([key] + recency) && forall k :: k in entries[key := blocks] <==> k in [key] + recency
  {
  }

  lemma DropCommutes(entries: map<string, seq<BlockId>>, key: string, blocks: seq<BlockId>, last: string)
    requires key != last
    ensures entries[key := blocks] - {last} == (entries - {last})[key := blocks]
  {
  }

  lemma AdmittedKeeps(c: Cached, capacity: nat, key: string, blocks: seq<BlockId>)
    requires Distinct(c.recency) && (forall k :: k in c.entries <==> k in c.recency) && 0 < capacity
    requires |c.recency| <= capacity && key !in c.entries && c.kv.pins == c.entries[key := blocks]
    ensures CachedOk(Admitted(c, capacity, key, blocks), capacity)
  {
    hide Distinct, Drop, Released;
    if |c.recency| == capacity {
      var n := |c.recency| - 1;
      WithoutLast(c.recency);
      DropCommutes(c.entries, key, blocks, c.recency[n]);
      Listed(c.recency[..n], c.entries - {c.recency[n]}, key, blocks);
    } else {
      Listed(c.recency, c.entries, key, blocks);
    }
  }

  lemma PutKeeps(c: Cached, capacity: nat, key: string, blocks: seq<BlockId>)
    requires CachedOk(c, capacity) && capacity > 0
    ensures CachedOk(AfterPut(c, capacity, key, blocks), capacity)
  {
    hide Distinct, Front, Admitted, LiveAndDistinct, Bump;
    if key in c.entries {
      FrontKeeps(c, capacity, key);
    } else if PutOk(c, key, blocks) {
      AdmittedKeeps(c.(kv := PinnedView(c.kv, key, blocks)), capacity, key, blocks);
    }
  }

  /** With live blocks and room for every prefix, exactly the missing prefixes are added. */
  lemma {:induction false} RoomyPuts(c: Cached, capacity: nat, ns: string, hashes: seq<string>, blocks: seq<BlockId>, n: nat)
    requires n <= |hashes| && n <= |blocks| && CachedOk(c, capacity) && |c.recency| + n <= capacity
    requires LiveAndDistinct(c.kv.refcounts, blocks)
    ensures var after := AfterPuts(c, capacity, ns, hashes, blocks, n);
      && CachedOk(after, capacity) && |after.recency| <= |c.recency| + n
      && LiveAndDistinct(after.kv.refcounts, blocks)
      && after.entries == PutAll(c.entries, ns, hashes, blocks, n)
  {
    hide BlockPrefixKey, LiveAndDistinct, CachedOk, AfterPut;
    if n > 0 {
      RoomyPuts(c, capacity, ns, hashes, blocks, n - 1);
      var before := AfterPuts(c, capacity, ns, hashes, blocks, n - 1);
      RoomyPut(before, capacity, BlockPrefixKey(ns, hashes[..n]), blocks, n);
      PutKeeps(before, capacity, BlockPrefixKey(ns, hashes[..n]), blocks[..n]);
    }
  }

  lemma RoomyPut(c: Cached, capacity: nat, key: string, blocks: seq<BlockId>, n: nat)
    requires 0 < n <= |blocks| && CachedOk(c, capacity) && |c.recency| < capacity
    requires LiveAndDistinct(c.kv.refcounts, blocks)
    ensures var after := AfterPut(c, capacity, key, blocks[..n]);
      && |after.recency| <= |c.recency| + 1 && LiveAndDistinct(after.kv.refcounts, blocks)
      && after.entries == if key in c.entries then c.entries else c.entries[key := blocks[..n]]
  {
    hide Distinct;
    if key in c.entries {
      FrontKeeps(c, capacity, key);
    } else {
      PrefixIsLive(c.kv.refcounts, blocks, n);
      StillLive(c.kv.refcounts, blocks[..n], blocks);
    }
  }

  lemma PrefixIsLive(refcounts: seq<nat>, blocks: seq<BlockId>, n: nat)
    requires n <= |blocks| && LiveAndDistinct(refcounts, blocks)
    ensures LiveAndDistinct(refcounts, blocks[..n])
  {
  }

  lemma StillLive(refcounts: seq<nat>, pinned: seq<BlockId>, blocks: seq<BlockId>)
    requires LiveAndDistinct(refcounts, blocks)
    ensures LiveAndDistinct(Bump(refcounts, pinned), blocks)
  {
  }

  /** The cache in place; its entries are exactly the allocator's pins. */
  class PrefixCache {
    const capacity: nat
    const kv: PagedKvCache
    var recency: seq<string>
    var entries: map<string, seq<BlockId>>
    var hits: nat
    var misses: nat

    ghost function View(): Cached
      reads this, kv
    {
      Cached(recency, entries, kv.View())
    }

    ghost predicate Valid()
      reads this, kv
    {
      kv.Valid() && capacity > 0 && CachedOk(View(), capacity)
    }

    constructor (capacity: nat, kv: PagedKvCache)
      requires capacity > 0 && kv.Valid() && kv.pins == map[]
      ensures Valid() && entries == map[] && this.capacity == capacity && this.kv == kv
    {
      this.capacity, this.kv := capacity, kv;
      recency, entries, hits, misses := [], map[], 0, 0;
    }

    /** Splices a key to the front of the recency list. */
    method Splice(key: string)
      requires Valid() && key in entries
      modifies this`recency
      ensures Valid() && recency == Front(old(recency), key)
    {
      hide Consistent, Front;
      FrontKeeps(View(), capacity, key);
      var i := 0;
      while recency[i] != key
        invariant 0 <= i < |recency|
        invariant forall k | 0 <= k < i :: recency[k] != key
        decreases |recency| - i
      {
        assert exists k :: i < k < |recency| && recency[k] == key;
        i := i + 1;
      }
      FrontIs(recency, i);
      recency := [key] + recency[..i] + recency[i + 1..];
    }

    static lemma {:induction false} WithoutIs(s: seq<string>, i: nat)
      requires i < |s| && Distinct(s)
      ensures Without(s, s[i]) == s[..i] + s[i + 1..]
    {
      var key, rest := s[i], s[1..];
      if i == 0 {
        assert key !in rest;
        WithoutFacts(rest, key);
        assert Without(s, key) == [] + Without(rest, key);
      } else {
        WithoutIs(rest, i - 1);
        assert s[0] != key && rest[i - 1] == key;
        JoinAround(s, i);
      }
    }

    static lemma JoinAround(s: seq<string>, i: nat)
      requires 0 < i < |s|
      ensures [s[0]] + (s[1..][..i - 1] + s[1..][i..]) == s[..i] + s[i + 1..]
    {
      assert s[..i] == [s[0]] + s[1..][..i - 1];
    }

    static lemma FrontIs(s: seq<string>, i: nat)
      requires i < |s| && Distinct(s)
      ensures Front(s, s[i]) == [s[i]] + s[..i] + s[i + 1..]
    {
      WithoutIs(s, i);
    }

    /** Unpins and forgets the key at the back of the recency list. */
    method DropLast()
      requires recency != [] && kv.Valid() && recency[|recency| - 1] in kv.pins
      modifies this`recency, this`entries, kv
      ensures kv.Valid()
      ensures var n := |old(recency)| - 1;
        && kv.View() == UnpinnedView(old(kv.View()), old(recency)[n])
        && entries == old(entries) - {old(recency)[n]} && recency == old(recency)[..n]
    {
      hide Consistent, Drop, Released;
      var last := recency[|recency| - 1];
      var found := kv.UnpinPrefix(last);
      entries := entries - {last};
      recency := recency[..|recency| - 1];
    }

    method EvictOldest() returns (evicted: bool)
      requires Valid()
      modifies this`recency, this`entries, kv
      ensures Valid() && kv.sequences == old(kv.sequences)
      ensures evicted <==> old(recency) != []
      ensures evicted ==> recency == old(recency)[..|old(recency)| - 1]
                          && entries == old(entries) - {old(recency)[|old(recency)| - 1]}
      ensures !evicted ==> recency == old(recency) && entries == old(entries)
    {
      hide Consistent, Drop, Released;
      if recency == [] {
        return false;
      }
      WithoutLast(recency);
      DropLast();
      return true;
    }

    /** A known key keeps its blocks and moves to the front; a new one is pinned, and the oldest goes if there is no room. */
    method Put(key: string, blocks: seq<BlockId>) returns (ok: bool)
      requires Valid()
      modifies this`recency, this`entries, kv
      ensures Valid() && View() == AfterPut(old(View()), capacity, key, blocks) && ok == PutOk(old(View()), key, blocks)
      ensures (ok || key in old(entries)) ==> recency != [] && recency[0] == key
    {
      hide Consistent, Drop, Released, Distinct, Bump, LiveAndDistinct, Without;
      PutKeeps(View(), capacity, key, blocks);
      if key in entries {
        Splice(key);
        return entries[key] == blocks;
      }
      ok := kv.PinPrefix(key, blocks);
      if ok {
        if |recency| == capacity {
          DropLast();
        }
        recency := [key] + recency;
        entries := entries[key := blocks];
      }
    }

    /** The longest cached prefix, longest first; a hit moves its key to the front. */
    method GetLongest(ns: string, hashes: seq<string>) returns (r: Option<Match>)
      requires Valid()
      modifies this`recency, this`hits, this`misses
      ensures Valid() && hits == old(hits) + (if r.Some? then 1 else 0) && misses == old(misses) + (if r.Some? then 0 else 1)
      ensures r.Some? ==> r.value.matchedBlockCount > 0
      ensures var n := if r.Some? then r.value.matchedBlockCount else 0;
        && LongestKey(entries, ns, hashes, n)
        && (n > 0 ==> r.value.blocks == entries[BlockPrefixKey(ns, hashes[..n])])
        && recency == if n > 0 then Front(old(recency), BlockPrefixKey(ns, hashes[..n])) else old(recency)
    {
      hide BlockPrefixKey, CachedOk, Consistent, Front;
      var count := |hashes|;
      while count > 0
        invariant 0 <= count <= |hashes|
        invariant forall k | count < k <= |hashes| :: BlockPrefixKey(ns, hashes[..k]) !in entries
      {
        var key := BlockPrefixKey(ns, hashes[..count]);
        if key in entries {
          hits := hits + 1;
          Splice(key);
          return Some(Match(entries[key], count));
        }
        count := count - 1;
      }
      misses := misses + 1;
      return None;
    }

    /** Puts every prefix, shortest first, and counts the puts that succeed; RoomyPuts says what that is with room. */
    method PutBlockPrefixes(ns: string, hashes: seq<string>, blocks: seq<BlockId>) returns (inserted: nat)
      requires Valid()
      modifies this`recency, this`entries, kv
      ensures Valid()
      ensures var count := Min(|hashes|, |blocks|);
        && View() == AfterPuts(old(View()), capacity, ns, hashes, blocks, count)
        && inserted == PutCount(old(View()), capacity, ns, hashes, blocks, count)
    {
      hide BlockPrefixKey, CachedOk, Consistent, AfterPut, PutOk;
      var count := Min(|hashes|, |blocks|);
      inserted := 0;
      for length := 0 to count
        invariant Valid()
        invariant View() == AfterPuts(old(View()), capacity, ns, hashes, blocks, length)
        invariant inserted == PutCount(old(View()), capacity, ns, hashes, blocks, length)
      {
        var ok := Put(BlockPrefixKey(ns, hashes[..length + 1]), blocks[..length + 1]);
        if ok {
          inserted := inserted + 1;
        }
      }
    }

    method Clear()
      requires Valid()
      modifies this`recency, this`entries, kv
      ensures Valid() && entries == map[] && kv.pins == map[] && kv.sequences == old(kv.sequences)
    {
      hide Consistent;
      while recency != []
        invariant Valid() && kv.sequences == old(kv.sequences)
        decreases |recency|
      {
        var evicted := EvictOldest();
      }
    }
  }

  // ---------------------------------------------------------------- the same answers as the tree

  /** Tree and entries hold the same prefixes with the same blocks. */
  ghost predicate Same(view: map<Path, Entry>, entries: map<string, seq<BlockId>>) {
    && PrefixClosed(view)
    && (forall p: Path | p.hashes != [] :: BlockPrefixKey(p.ns, p.hashes) in entries <==> p in view)
    && (forall p | p in view :: SameBlocks(view, entries, p))
  }

  ghost predicate SameBlocks(view: map<Path, Entry>, entries: map<string, seq<BlockId>>, p: Path) {
    var key := BlockPrefixKey(p.ns, p.hashes);
    && key in entries && |entries[key]| == |p.hashes|
    && Filled(view, p.ns, p.hashes, entries[key], |p.hashes|)
  }

  /** The first `n` prefixes are cached, each with its block of the list. */
  ghost predicate Filled(view: map<Path, Entry>, ns: string, hashes: seq<string>, blocks: seq<BlockId>, n: nat)
    requires n <= |hashes| && n <= |blocks|
  {
    forall k | 0 < k <= n :: Prefix(ns, hashes, k) in view && view[Prefix(ns, hashes, k)].block == blocks[k - 1]
  }

  lemma FilledShorter(view: map<Path, Entry>, ns: string, hashes: seq<string>, blocks: seq<BlockId>, n: nat, m: nat)
    requires n <= m <= |hashes| && n <= |blocks|
    ensures Filled(view, ns, hashes, blocks, n) <==> Filled(view, ns, hashes[..m], blocks, n)
  {
    forall k | 0 < k <= n ensures Prefix(ns, hashes[..m], k) == Prefix(ns, hashes, k) {
      assert hashes[..m][..k] == hashes[..k];
    }
  }

  /** Same prefixes, same answer: length and blocks of the longest match agree. */
  lemma SameAnswers(view: map<Path, Entry>, entries: map<string, seq<BlockId>>, ns: string, hashes: seq<string>, m: nat,
                    n: nat)
    requires Same(view, entries) && IsLongest(view, ns, hashes, m) && LongestKey(entries, ns, hashes, n)
    ensures m == n
    ensures n > 0 ==>
      && |entries[BlockPrefixKey(ns, hashes[..n])]| == n
      && Filled(view, ns, hashes, entries[BlockPrefixKey(ns, hashes[..n])], n)
  {
    hide BlockPrefixKey, PrefixClosed, Filled;
    if m > 0 {
      assert Prefix(ns, hashes, m) in view;
    }
    if n > 0 {
      var p := Prefix(ns, hashes, n);
      assert p in view && SameBlocks(view, entries, p);
      FilledShorter(view, ns, hashes, entries[BlockPrefixKey(ns, p.hashes)], n, n);
    }
  }

  /** The blocks offered repeat the blocks of the longest cached prefix. */
  ghost predicate Reuses(view: map<Path, Entry>, ns: string, hashes: seq<string>, blocks: seq<BlockId>, from: nat)
  {
    forall k | from < k <= |hashes| && k <= |blocks| && Prefix(ns, hashes, k) in view :: view[Prefix(ns, hashes, k)].block == blocks[k - 1]
  }

  lemma PlusOneClosed(view: map<Path, Entry>, p: Path, e: Entry)
    requires PrefixClosed(view) && p.hashes != []
    requires forall k | 0 < k < |p.hashes| :: Prefix(p.ns, p.hashes, k) in view
    ensures PrefixClosed(view[p := e])
  {
    forall k | 0 < k <= |p.hashes| ensures Path(p.ns, p.hashes[..k]) in view[p := e] {
      if k < |p.hashes| {
        assert Prefix(p.ns, p.hashes, k) in view;
      } else {
        assert p.hashes[..k] == p.hashes;
      }
    }
  }

  /** A node that was not there changes no cached prefix list. */
  lemma OldStaysSame(view: map<Path, Entry>, entries: map<string, seq<BlockId>>, p: Path, e: Entry, blocks: seq<BlockId>,
                     q: Path)
    requires q in view && p !in view && SameBlocks(view, entries, q)
    ensures SameBlocks(view[p := e], entries[BlockPrefixKey(p.ns, p.hashes) := blocks], q)
  {
    hide BlockPrefixKey;
    assert BlockPrefixKey(q.ns, q.hashes) != BlockPrefixKey(p.ns, p.hashes) by {
      if BlockPrefixKey(q.ns, q.hashes) == BlockPrefixKey(p.ns, p.hashes) {
        BlockPrefixKeyInjective(q, p);
      }
    }
  }

  /** Adding one prefix whose shorter prefixes are there keeps the correspondence. */
  lemma SameStep(view: map<Path, Entry>, entries: map<string, seq<BlockId>>, p: Path, blocks: seq<BlockId>, e: Entry)
    requires Same(view, entries) && p !in view && p.hashes != [] && |blocks| == |p.hashes|
    requires Filled(view, p.ns, p.hashes, blocks, |p.hashes| - 1) && e.block == blocks[|p.hashes| - 1]
    ensures Same(view[p := e], entries[BlockPrefixKey(p.ns, p.hashes) := blocks])
  {
    hide BlockPrefixKey, SameBlocks, PrefixClosed;
    var key := BlockPrefixKey(p.ns, p.hashes);
    var view', entries' := view[p := e], entries[key := blocks];
    PlusOneClosed(view, p, e);
    forall q: Path | q.hashes != [] ensures BlockPrefixKey(q.ns, q.hashes) in entries' <==> q in view' {
      if BlockPrefixKey(q.ns, q.hashes) == key {
        BlockPrefixKeyInjective(q, p);
      }
    }
    forall q | q in view' ensures SameBlocks(view', entries', q) {
      if q == p {
        NewIsSame(view, entries, p, blocks, e);
      } else {
        OldStaysSame(view, entries, p, e, blocks, q);
      }
    }
  }

  lemma NewIsSame(view: map<Path, Entry>, entries: map<string, seq<BlockId>>, p: Path, blocks: seq<BlockId>, e: Entry)
    requires p.hashes != [] && |blocks| == |p.hashes|
    requires Filled(view, p.ns, p.hashes, blocks, |p.hashes| - 1) && e.block == blocks[|p.hashes| - 1]
    ensures SameBlocks(view[p := e], entries[BlockPrefixKey(p.ns, p.hashes) := blocks], p)
  {
    hide BlockPrefixKey;
    forall k | 0 < k <= |p.hashes|
      ensures Prefix(p.ns, p.hashes, k) in view[p := e] && view[p := e][Prefix(p.ns, p.hashes, k)].block == blocks[k - 1]
    {
      if k == |p.hashes| {
        assert p.hashes[..k] == p.hashes;
      } else {
        assert |Prefix(p.ns, p.hashes, k).hashes| < |p.hashes|;
      }
    }
  }

  /** New stamps change nothing that queries return. */
  lemma SameStamps(view: map<Path, Entry>, entries: map<string, seq<BlockId>>, view': map<Path, Entry>)
    requires Same(view, entries) && view'.Keys == view.Keys
    requires forall p | p in view :: view'[p].block == view[p].block
    ensures Same(view', entries)
  {
    hide BlockPrefixKey;
    forall q | q in view' ensures SameBlocks(view', entries, q) {
      assert SameBlocks(view, entries, q);
    }
  }

  lemma SameKey(view: map<Path, Entry>, entries: map<string, seq<BlockId>>, p: Path)
    requires Same(view, entries) && p.hashes != []
    ensures BlockPrefixKey(p.ns, p.hashes) in entries <==> p in view
  {
  }

  lemma OneMoreFilled(view: map<Path, Entry>, ns: string, hashes: seq<string>, blocks: seq<BlockId>, n: nat, e: Entry)
    requires 0 < n <= |hashes| && n <= |blocks| && Filled(view, ns, hashes, blocks, n - 1) && e.block == blocks[n - 1]
    ensures Filled(view[Prefix(ns, hashes, n) := e], ns, hashes, blocks, n)
    ensures Reuses(view, ns, hashes, blocks, n - 1) ==> Reuses(view[Prefix(ns, hashes, n) := e], ns, hashes, blocks, n)
  {
    forall k | 0 < k <= |hashes| && k != n ensures Prefix(ns, hashes, k) != Prefix(ns, hashes, n) {
      assert |Prefix(ns, hashes, k).hashes| == k;
    }
  }

  /** An insertion into both caches, with the blocks of its own longest match, keeps the correspondence. */
  lemma {:induction false} SameInsertion(view: map<Path, Entry>, entries: map<string, seq<BlockId>>, nextPin: nat, clock: nat,
                                         ns: string, hashes: seq<string>, blocks: seq<BlockId>, n: nat)
    requires n <= |hashes| && n <= |blocks| && Same(view, entries) && Reuses(view, ns, hashes, blocks, 0)
    ensures var u := Inserted(view, nextPin, clock, ns, hashes, blocks, n).view;
      Same(u, PutAll(entries, ns, hashes, blocks, n)) && Filled(u, ns, hashes, blocks, n) && Reuses(u, ns, hashes, blocks, n)
  {
    hide BlockPrefixKey, Same, Decimal, PinKey, Filled, Reuses;
    if n == 0 {
      NothingFilled(view, ns, hashes, blocks);
    } else {
      SameInsertion(view, entries, nextPin, clock, ns, hashes, blocks, n - 1);
      var u, es := Inserted(view, nextPin, clock, ns, hashes, blocks, n - 1), PutAll(entries, ns, hashes, blocks, n - 1);
      var p := Prefix(ns, hashes, n);
      SameKey(u.view, es, p);
      var e: Entry;
      if p in u.view {
        e := u.view[p].(lastAccess := clock + n);
        ReusedBlock(u.view, ns, hashes, blocks, n);
        SameStamps(u.view, es, u.view[p := e]);
      } else {
        e := Entry(blocks[n - 1], PinKey(u.nextPin), clock + n);
        FilledTake(u.view, ns, hashes, blocks, n);
        SameStep(u.view, es, p, blocks[..n], e);
      }
      OneMoreFilled(u.view, ns, hashes, blocks, n, e);
    }
  }

  lemma NothingFilled(view: map<Path, Entry>, ns: string, hashes: seq<string>, blocks: seq<BlockId>)
    ensures Filled(view, ns, hashes, blocks, 0)
  {
  }

  lemma ReusedBlock(view: map<Path, Entry>, ns: string, hashes: seq<string>, blocks: seq<BlockId>, n: nat)
    requires 0 < n <= |hashes| && n <= |blocks| && Reuses(view, ns, hashes, blocks, n - 1) && Prefix(ns, hashes, n) in view
    ensures view[Prefix(ns, hashes, n)].block == blocks[n - 1]
  {
  }

  lemma FilledTake(view: map<Path, Entry>, ns: string, hashes: seq<string>, blocks: seq<BlockId>, n: nat)
    requires 0 < n <= |hashes| && n <= |blocks| && Filled(view, ns, hashes, blocks, n - 1)
    ensures Filled(view, ns, hashes[..n], blocks[..n], n - 1)
  {
    FilledShorter(view, ns, hashes, blocks, n - 1, n);
  }

  /** A lookup in the tree changes stamps only. */
  lemma SameLookup(view: map<Path, Entry>, entries: map<string, seq<BlockId>>, clock: nat, ns: string, hashes: seq<string>,
                   n: nat)
    requires Same(view, entries) && n <= |hashes|
    ensures Same(Touched(view, clock, ns, hashes, n), entries)
  {
    hide Same;
    SameStamps(view, entries, Touched(view, clock, ns, hashes, n));
  }

  // ---------------------------------------------------------------- both caches side by side

  datatype PrefixOp = Insert(ns: string, hashes: seq<string>, blocks: seq<BlockId>) | Query(ns: string, hashes: seq<string>)

  /** The tree's map with its counters, next to the materialised entries. */
  datatype Pair = Pair(view: map<Path, Entry>, nextPin: nat, clock: nat, entries: map<string, seq<BlockId>>)

  /** Both caches handle the same call; nothing is evicted, and an insertion reuses the blocks of its own match. */
  ghost predicate PairStep(a: Pair, op: PrefixOp, b: Pair) {
    match op
    case Insert(ns, hashes, blocks) =>
      var n := Min(|hashes|, |blocks|);
      var put := Inserted(a.view, a.nextPin, a.clock, ns, hashes, blocks, n);
      && Reuses(a.view, ns, hashes, blocks, 0)
      && b == Pair(put.view, put.nextPin, a.clock + n, PutAll(a.entries, ns, hashes, blocks, n))
    case Query(ns, hashes) =>
      exists n | IsLongest(a.view, ns, hashes, n) ::
        b == a.(view := Touched(a.view, a.clock, ns, hashes, n), clock := a.clock + n)
  }

  ghost predicate PairRun(pairs: seq<Pair>, ops: seq<PrefixOp>) {
    && |pairs| == |ops| + 1 && pairs[0] == Pair(map[], 0, 0, map[])
    && forall i | 0 <= i < |ops| :: PairStep(pairs[i], ops[i], pairs[i + 1])
  }

  lemma {:induction false} PairsAgree(pairs: seq<Pair>, ops: seq<PrefixOp>, i: nat)
    requires PairRun(pairs, ops) && i < |pairs|
    ensures Same(pairs[i].view, pairs[i].entries)
  {
    hide Same, Inserted, PutAll, Touched, Reuses;
    if i == 0 {
      NothingIsSame();
    } else {
      PairsAgree(pairs, ops, i - 1);
      var a := pairs[i - 1];
      assert PairStep(a, ops[i - 1], pairs[i]);
      match ops[i - 1]
      case Insert(ns, hashes, blocks) =>
        SameInsertion(a.view, a.entries, a.nextPin, a.clock, ns, hashes, blocks, Min(|hashes|, |blocks|));
      case Query(ns, hashes) =>
        var n :| IsLongest(a.view, ns, hashes, n) &&
                 pairs[i] == a.(view := Touched(a.view, a.clock, ns, hashes, n), clock := a.clock + n);
        SameLookup(a.view, a.entries, a.clock, ns, hashes, n);
    }
  }

  lemma NothingIsSame()
    ensures Same(map[], map[])
  {
  }

  /** After any such run the two caches return the same match length and the same blocks for every query. */
  lemma CachesAgree(pairs: seq<Pair>, ops: seq<PrefixOp>, i: nat, ns: string, hashes: seq<string>, m: nat, n: nat)
    requires PairRun(pairs, ops) && i < |pairs|
    requires IsLongest(pairs[i].view, ns, hashes, m) && LongestKey(pairs[i].entries, ns, hashes, n)
    ensures m == n
    ensures n > 0 ==>
      MatchOf(pairs[i].view, ns, hashes, n) == pairs[i].entries[BlockPrefixKey(ns, hashes[..n])]
  {
    hide PairRun, Same, BlockPrefixKey;
    PairsAgree(pairs, ops, i);
    SameAnswers(pairs[i].view, pairs[i].entries, ns, hashes, m, n);
  }

  /** The blocks the tree returns for a match of length `n`. */
  ghost function MatchOf(view: map<Path, Entry>, ns: string, hashes: seq<string>, n: nat): seq<BlockId>
    requires IsLongest(view, ns, hashes, n)
  {
    seq(n, i requires 0 <= i < n => view[Prefix(ns, hashes, i + 1)].block)
  }

  // ---------------------------------------------------------------- the two classes side by side

  ghost predicate Coupled(radix: RadixPrefixCache, cache: PrefixCache)
    reads radix, radix.kv, cache, cache.kv
  {
    radix.Valid() && cache.Valid() && radix.kv != cache.kv && Same(radix.view, cache.entries)
  }

  lemma {:induction false} InsertedSize(view: map<Path, Entry>, nextPin: nat, clock: nat, ns: string, hashes: seq<string>,
                                        blocks: seq<BlockId>, n: nat)
    requires n <= |hashes| && n <= |blocks|
    ensures |Inserted(view, nextPin, clock, ns, hashes, blocks, n).view| <= |view| + n
  {
    hide PinKey;
    if n > 0 {
      InsertedSize(view, nextPin, clock, ns, hashes, blocks, n - 1);
      var u, p := Inserted(view, nextPin, clock, ns, hashes, blocks, n - 1).view, Prefix(ns, hashes, n);
      OneMoreKey(u, p, Inserted(view, nextPin, clock, ns, hashes, blocks, n).view[p]);
    }
  }

  lemma OneMoreKey(view: map<Path, Entry>, p: Path, e: Entry)
    ensures |view[p := e]| <= |view| + 1
  {
    assert view[p := e].Keys == view.Keys + {p};
    assert |view.Keys + {p}| <= |view.Keys| + 1;
    assert |view[p := e]| == |view[p := e].Keys| && |view| == |view.Keys|;
  }

  /** Live blocks and room: the tree takes the whole insertion and evicts nothing. */
  lemma RoomyTree(view: map<Path, Entry>, refcounts: seq<nat>, nextPin: nat, clock: nat, ns: string, hashes: seq<string>,
                  blocks: seq<BlockId>, capacity: nat)
    requires LiveAndDistinct(refcounts, blocks) && |view| + Min(|hashes|, |blocks|) <= capacity
    ensures var n := Min(|hashes|, |blocks|);
      && PutLength(view, refcounts, ns, hashes, blocks, n) == n
      && var put := Inserted(view, nextPin, clock, ns, hashes, blocks, n).view; EvictedTo(put, capacity) == put
  {
    hide Inserted, PutLength, HasOldestLeaf;
    LiveBlocksGoIn(view, refcounts, ns, hashes, blocks, Min(|hashes|, |blocks|));
    InsertedSize(view, nextPin, clock, ns, hashes, blocks, Min(|hashes|, |blocks|));
  }

  /** The same query to both: the same match. */
  method QueryBoth(radix: RadixPrefixCache, cache: PrefixCache, ns: string, hashes: seq<string>)
      returns (a: Option<Match>, b: Option<Match>)
    requires Coupled(radix, cache)
    modifies radix, cache
    ensures Coupled(radix, cache) && a == b
  {
    hide Consistent, TreeOk, CachedOk, Same, LongestKey, Touched, BlockPrefixKey, Front, Filled;
    ghost var view, clock := radix.view, radix.accessClock;
    a := radix.GetLongest(ns, hashes);
    b := cache.GetLongest(ns, hashes);
    ghost var n := if b.Some? then b.value.matchedBlockCount else 0;
    SameAnswers(view, cache.entries, ns, hashes, if a.Some? then a.value.matchedBlockCount else 0, n);
    SameLookup(view, cache.entries, clock, ns, hashes, if a.Some? then a.value.matchedBlockCount else 0);
    if b.Some? {
      FilledIs(view, ns, hashes, a.value.blocks, b.value.blocks, n);
    }
  }

  lemma FilledIs(view: map<Path, Entry>, ns: string, hashes: seq<string>, a: seq<BlockId>, b: seq<BlockId>, n: nat)
    requires n <= |hashes| && |a| == |b| == n && Filled(view, ns, hashes, b, n)
    requires forall i | 0 <= i < n :: Prefix(ns, hashes, i + 1) in view && a[i] == view[Prefix(ns, hashes, i + 1)].block
    ensures a == b
  {
    forall i | 0 <= i < n ensures a[i] == b[i] {
      assert view[Prefix(ns, hashes, i + 1)].block == b[i + 1 - 1];
    }
  }

  /** The same insertion into both, with live blocks that repeat the longest match, and room: they stay equivalent. */
  method InsertBoth(radix: RadixPrefixCache, cache: PrefixCache, ns: string, hashes: seq<string>, blocks: seq<BlockId>)
    requires Coupled(radix, cache) && Reuses(radix.view, ns, hashes, blocks, 0)
    requires LiveAndDistinct(radix.kv.refcounts, blocks) && LiveAndDistinct(cache.kv.refcounts, blocks)
    requires |radix.view| + Min(|hashes|, |blocks|) <= radix.capacity
    requires |cache.recency| + Min(|hashes|, |blocks|) <= cache.capacity
    modifies radix, radix.kv, cache, cache.kv
    ensures Coupled(radix, cache)
  {
    hide Consistent, TreeOk, CachedOk, Same, Inserted, EvictedTo, PutLength, Reuses, LiveAndDistinct, AfterPuts, PutCount,
         PutAll;
    var n := Min(|hashes|, |blocks|);
    RoomyTree(radix.view, radix.kv.refcounts, radix.nextPinId, radix.accessClock, ns, hashes, blocks, radix.capacity);
    RoomyPuts(cache.View(), cache.capacity, ns, hashes, blocks, n);
    SameInsertion(radix.view, cache.entries, radix.nextPinId, radix.accessClock, ns, hashes, blocks, n);
    var x := radix.PutBlockPrefixes(ns, hashes, blocks);
    var y := cache.PutBlockPrefixes(ns, hashes, blocks);
  }
}
