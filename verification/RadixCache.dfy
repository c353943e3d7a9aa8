/**
 RadixPrefixCache (cpp/src/radix_prefix_cache.cpp): one pinned KV block per tree node, least
 recently used leaf evicted first.

 The class keeps the tree; the ghost field `view` is the flat map it represents. Every method is
 specified on that map, so users of the cache never look at the tree.
 */
module RadixCache {
  import opened Arithmetic
  import opened Text
  import opened PagedKv
  import opened RadixTree

  datatype Match = Match(blocks: seq<BlockId>, matchedBlockCount: nat)

  datatype LeafCandidate = LeafCandidate(path: Path, lastAccess: nat)

  function PinKey(i: nat): string {
    "radix-prefix-" + Decimal(i)
  }

  lemma PinKeyInjective(i: nat, j: nat)
    requires PinKey(i) == PinKey(j)
    ensures i == j
  {
    var prefix := "radix-prefix-";
    assert Decimal(i) == PinKey(i)[|prefix|..] == PinKey(j)[|prefix|..] == Decimal(j);
    DecimalInjective(i, j);
  }

  /** The pin keys handed out before the counter reached `n`. */
  ghost function Issued(n: nat): set<string> {
    if n == 0 then {} else Issued(n - 1) + {PinKey(n - 1)}
  }

  lemma {:induction false} NextKeyIsFresh(n: nat, m: nat)
    requires n <= m
    ensures PinKey(m) !in Issued(n)
  {
    if n > 0 {
      NextKeyIsFresh(n - 1, m);
      if PinKey(m) == PinKey(n - 1) {
        PinKeyInjective(m, n - 1);
      }
    }
  }

  // ---------------------------------------------------------------- invariants of the flat map

  ghost predicate StampsOk(view: map<Path, Entry>, clock: nat) {
    && (forall p | p in view :: view[p].lastAccess <= clock)
    && (forall p, q | p in view && q in view && p != q :: view[p].lastAccess != view[q].lastAccess)
  }

  ghost predicate Backed(view: map<Path, Entry>, pins: map<string, seq<BlockId>>) {
    forall p | p in view :: view[p].pinKey in pins && pins[view[p].pinKey] == [view[p].block]
  }

  ghost predicate KeysDistinct(view: map<Path, Entry>) {
    forall p, q | p in view && q in view && p != q :: view[p].pinKey != view[q].pinKey
  }

  /** Pins and nodes match one to one, and keys not handed out yet are unused. */
  ghost predicate PinsOk(view: map<Path, Entry>, issued: set<string>, pins: map<string, seq<BlockId>>) {
    && Backed(view, pins)
    && KeysDistinct(view)
    && |pins| == |view|
    && pins.Keys <= issued
  }

  ghost function Prefix(ns: string, hashes: seq<string>, n: nat): Path
    requires n <= |hashes|
  {
    Path(ns, hashes[..n])
  }

  /** `n` is the length of the longest cached prefix of `hashes`. */
  ghost predicate IsLongest(view: map<Path, Entry>, ns: string, hashes: seq<string>, n: nat) {
    && n <= |hashes|
    && (forall k | 0 < k <= n :: Prefix(ns, hashes, k) in view)
    && (forall k | n < k <= |hashes| :: Prefix(ns, hashes, k) !in view)
  }

  /** A lookup stamps the matched nodes from the root down with successive clock values. */
  ghost function Touched(view: map<Path, Entry>, clock: nat, ns: string, hashes: seq<string>, n: nat): map<Path, Entry>
    requires n <= |hashes|
  {
    map p | p in view ::
      if p.ns == ns && |p.hashes| <= n && p.hashes == hashes[..|p.hashes|]
      then view[p].(lastAccess := clock + |p.hashes|) else view[p]
  }

  lemma TouchedStep(view: map<Path, Entry>, clock: nat, ns: string, hashes: seq<string>, n: nat)
    requires n < |hashes| && Prefix(ns, hashes, n + 1) in Touched(view, clock, ns, hashes, n)
    ensures var p := Prefix(ns, hashes, n + 1);
      && p in view && Touched(view, clock, ns, hashes, n)[p] == view[p]
      && Touched(view, clock, ns, hashes, n + 1)
         == Touched(view, clock, ns, hashes, n)[p := view[p].(lastAccess := clock + n + 1)]
  {
  }

  lemma TouchedNothing(view: map<Path, Entry>, clock: nat, ns: string, hashes: seq<string>)
    requires PrefixClosed(view)
    ensures Touched(view, clock, ns, hashes, 0) == view
  {
  }

  /** In a prefix-closed map the first missing prefix ends the match. */
  lemma FirstMissing(view: map<Path, Entry>, clock: nat, ns: string, hashes: seq<string>, n: nat)
    requires PrefixClosed(view) && n <= |hashes|
    requires forall k | 0 < k <= n :: Prefix(ns, hashes, k) in view
    requires n < |hashes| ==> Prefix(ns, hashes, n + 1) !in Touched(view, clock, ns, hashes, n)
    ensures IsLongest(view, ns, hashes, n)
  {
    forall k | n < k <= |hashes| ensures Prefix(ns, hashes, k) !in view {
      assert hashes[..k][..n + 1] == hashes[..n + 1];
      assert Path(ns, hashes[..k][..n + 1]) == Prefix(ns, hashes, n + 1);
    }
  }

  /** The map and the pin counter while a prompt's blocks are being inserted. */
  datatype Insertion = Insertion(view: map<Path, Entry>, nextPin: nat)

  /** After the first `n` blocks of a prompt: known prefixes are stamped, new ones get a node. */
  ghost function Inserted(view: map<Path, Entry>, nextPin: nat, clock: nat, ns: string, hashes: seq<string>,
                          blocks: seq<BlockId>, n: nat): Insertion
    requires n <= |hashes| && n <= |blocks|
  {
    if n == 0 then Insertion(view, nextPin)
    else
      var u := Inserted(view, nextPin, clock, ns, hashes, blocks, n - 1);
      var p := Prefix(ns, hashes, n);
      if p in u.view then u.(view := u.view[p := u.view[p].(lastAccess := clock + n)])
      else Insertion(u.view[p := Entry(blocks[n - 1], PinKey(u.nextPin), clock + n)], u.nextPin + 1)
  }

  /** How many blocks a put can process: it stops at a new prefix whose block is not live. */
  ghost function PutLength(view: map<Path, Entry>, refcounts: seq<nat>, ns: string, hashes: seq<string>,
                           blocks: seq<BlockId>, count: nat): (n: nat)
    requires count <= |hashes| && count <= |blocks|
    ensures n <= count
  {
    if count == 0 then 0
    else
      var m := PutLength(view, refcounts, ns, hashes, blocks, count - 1);
      if m == count - 1 && (Prefix(ns, hashes, count) in view || IsLive(refcounts, blocks[count - 1]))
      then count else m
  }

  ghost predicate IsLive(refcounts: seq<nat>, b: BlockId) {
    b < |refcounts| && refcounts[b] > 0
  }

  /** Live blocks are all processed. */
  lemma {:induction false} LiveBlocksGoIn(view: map<Path, Entry>, refcounts: seq<nat>, ns: string, hashes: seq<string>,
                                          blocks: seq<BlockId>, count: nat)
    requires count <= |hashes| && count <= |blocks| && forall i | 0 <= i < count :: IsLive(refcounts, blocks[i])
    ensures PutLength(view, refcounts, ns, hashes, blocks, count) == count
  {
    if count > 0 {
      LiveBlocksGoIn(view, refcounts, ns, hashes, blocks, count - 1);
    }
  }

  lemma {:induction false} InsertedKeys(view: map<Path, Entry>, nextPin: nat, clock: nat, ns: string,
                                        hashes: seq<string>, blocks: seq<BlockId>, n: nat)
    requires n <= |hashes| && n <= |blocks|
    ensures forall p :: (p in Inserted(view, nextPin, clock, ns, hashes, blocks, n).view <==>
                         p in view || (p.ns == ns && 0 < |p.hashes| <= n && p.hashes == hashes[..|p.hashes|]))
  {
    if n > 0 {
      InsertedKeys(view, nextPin, clock, ns, hashes, blocks, n - 1);
    }
  }

  // ---------------------------------------------------------------- eviction on the flat map

  ghost predicate HasOldestLeaf(view: map<Path, Entry>) {
    exists p :: IsOldestLeaf(view, p)
  }

  ghost function OldestLeaf(view: map<Path, Entry>): (p: Path)
    requires HasOldestLeaf(view)
    ensures IsOldestLeaf(view, p)
  {
    var p :| IsOldestLeaf(view, p);
    p
  }

  /** Evicting oldest leaves until at most `limit` nodes are left. */
  ghost function EvictedTo(view: map<Path, Entry>, limit: nat): map<Path, Entry>
    decreases |view|
  {
    if |view| <= limit || !HasOldestLeaf(view) then view
    else EvictedTo(view - {OldestLeaf(view)}, limit)
  }

  lemma {:induction false} EvictedToShrinks(view: map<Path, Entry>, limit: nat)
    ensures EvictedTo(view, limit).Keys <= view.Keys
    ensures forall p | p in EvictedTo(view, limit) :: EvictedTo(view, limit)[p] == view[p]
    decreases |view|
  {
    if |view| > limit && HasOldestLeaf(view) {
      EvictedToShrinks(view - {OldestLeaf(view)}, limit);
    }
  }

  // ---------------------------------------------------------------- keeping the invariants

  lemma TouchKeeps(view: map<Path, Entry>, p: Path, clock: nat, issued: set<string>, pins: map<string, seq<BlockId>>)
    requires p in view && StampsOk(view, clock) && PinsOk(view, issued, pins)
    ensures var v := view[p := view[p].(lastAccess := clock + 1)];
      StampsOk(v, clock + 1) && PinsOk(v, issued, pins) && |v| == |view|
  {
    var v := view[p := view[p].(lastAccess := clock + 1)];
    assert v.Keys == view.Keys;
    assert forall q | q in v :: v[q].pinKey == view[q].pinKey && v[q].block == view[q].block;
  }

  lemma InsertStamps(view: map<Path, Entry>, p: Path, e: Entry, clock: nat)
    requires p !in view && StampsOk(view, clock) && e.lastAccess == clock + 1
    ensures StampsOk(view[p := e], clock + 1) && |view[p := e]| == |view| + 1
  {
    assert view[p := e].Keys == view.Keys + {p};
  }

  lemma InsertBacked(view: map<Path, Entry>, p: Path, e: Entry, pins: map<string, seq<BlockId>>)
    requires p !in view && Backed(view, pins) && e.pinKey !in pins
    ensures Backed(view[p := e], pins[e.pinKey := [e.block]])
  {
  }

  lemma InsertDistinct(view: map<Path, Entry>, p: Path, e: Entry)
    requires p !in view && KeysDistinct(view)
    requires forall q | q in view :: view[q].pinKey != e.pinKey
    ensures KeysDistinct(view[p := e])
  {
  }

  lemma InsertPins(view: map<Path, Entry>, p: Path, e: Entry, issued: set<string>, pins: map<string, seq<BlockId>>)
    requires p !in view && PinsOk(view, issued, pins) && e.pinKey !in issued
    ensures PinsOk(view[p := e], issued + {e.pinKey}, pins[e.pinKey := [e.block]])
  {
    InsertBacked(view, p, e, pins);
    InsertDistinct(view, p, e);
    assert view[p := e].Keys == view.Keys + {p};
    assert pins[e.pinKey := [e.block]].Keys == pins.Keys + {e.pinKey};
  }

  lemma RemoveKeeps(view: map<Path, Entry>, p: Path, clock: nat, issued: set<string>, pins: map<string, seq<BlockId>>)
    requires p in view && StampsOk(view, clock) && PinsOk(view, issued, pins)
    ensures StampsOk(view - {p}, clock)
    ensures PinsOk(view - {p}, issued, pins - {view[p].pinKey})
    ensures |view - {p}| == |view| - 1
  {
    assert (view - {p}).Keys == view.Keys - {p};
    assert (pins - {view[p].pinKey}).Keys == pins.Keys - {view[p].pinKey};
  }

  /** Everything the cache promises about its tree, its flat map and its pins. */
  ghost predicate TreeOk(roots: map<string, Forest>, view: map<Path, Entry>, nodeCount: nat, clock: nat,
                         issued: set<string>, pins: map<string, seq<BlockId>>) {
    && Shows(roots, view)
    && nodeCount == |view|
    && StampsOk(view, clock)
    && PinsOk(view, issued, pins)
  }

  function PlaceAt(roots: map<string, Forest>, p: Path, e: Entry): map<string, Forest>
    requires p.hashes != [] && p.ns in roots && Attached(roots[p.ns], p.hashes)
  {
    roots[p.ns := Place(roots[p.ns], p.hashes, e)]
  }

  lemma ParentAttaches(roots: map<string, Forest>, view: map<Path, Entry>, p: Path)
    requires Shows(roots, view) && p.hashes != [] && p.ns in roots
    requires |p.hashes| > 1 ==> Prefix(p.ns, p.hashes, |p.hashes| - 1) in view
    ensures Attached(roots[p.ns], p.hashes)
  {
    if |p.hashes| > 1 {
      assert Look(roots, Prefix(p.ns, p.hashes, |p.hashes| - 1)).Some?;
    }
    AttachedBelow(roots[p.ns], p.hashes);
  }

  lemma KnownAttaches(roots: map<string, Forest>, view: map<Path, Entry>, p: Path)
    requires Shows(roots, view) && p in view
    ensures p.hashes != [] && p.ns in roots && Attached(roots[p.ns], p.hashes)
    ensures Find(roots[p.ns], p.hashes).Some? && EntryOf(Find(roots[p.ns], p.hashes).value) == view[p]
  {
    assert Look(roots, p) == Some(view[p]);
    ShowsPrefixClosed(roots, view);
    ParentAttaches(roots, view, p);
  }

  lemma VisitKeeps(roots: map<string, Forest>, view: map<Path, Entry>, nodeCount: nat, clock: nat,
                   issued: set<string>, pins: map<string, seq<BlockId>>, p: Path, e: Entry)
    requires TreeOk(roots, view, nodeCount, clock, issued, pins) && p in view
    requires e == view[p].(lastAccess := clock + 1)
    requires p.hashes != [] && p.ns in roots && Attached(roots[p.ns], p.hashes)
    ensures TreeOk(PlaceAt(roots, p, e), view[p := e], nodeCount, clock + 1, issued, pins)
  {
    PlaceShows(roots, view, p, e);
    TouchKeeps(view, p, clock, issued, pins);
  }

  lemma InsertKeeps(roots: map<string, Forest>, view: map<Path, Entry>, nodeCount: nat, clock: nat,
                    issued: set<string>, pins: map<string, seq<BlockId>>, p: Path, e: Entry)
    requires TreeOk(roots, view, nodeCount, clock, issued, pins) && p !in view
    requires e.lastAccess == clock + 1 && e.pinKey !in issued
    requires p.hashes != [] && p.ns in roots && Attached(roots[p.ns], p.hashes)
    ensures TreeOk(PlaceAt(roots, p, e), view[p := e], nodeCount + 1, clock + 1, issued + {e.pinKey},
                   pins[e.pinKey := [e.block]])
  {
    PlaceShows(roots, view, p, e);
    InsertStamps(view, p, e, clock);
    InsertPins(view, p, e, issued, pins);
  }

  lemma MoreIssued(roots: map<string, Forest>, view: map<Path, Entry>, nodeCount: nat, clock: nat,
                   issued: set<string>, pins: map<string, seq<BlockId>>, more: set<string>)
    requires TreeOk(roots, view, nodeCount, clock, issued, pins) && issued <= more
    ensures TreeOk(roots, view, nodeCount, clock, more, pins)
  {
  }

  // ---------------------------------------------------------------- leaves of one forest

  ghost predicate LeafAt(f: Forest, q: seq<string>) {
    q != [] && Find(f, q).Some? && Find(f, q).value.children == map[]
  }

  ghost function StampAt(f: Forest, q: seq<string>): nat
    requires LeafAt(f, q)
  {
    Find(f, q).value.lastAccess
  }

  /** The candidate is a leaf of this forest, which hangs below `prefix`. */
  ghost predicate FoundIn(c: LeafCandidate, f: Forest, ns: string, prefix: seq<string>) {
    && c.path.ns == ns && prefix <= c.path.hashes
    && LeafAt(f, c.path.hashes[|prefix|..])
    && c.lastAccess == StampAt(f, c.path.hashes[|prefix|..])
  }

  ghost predicate NoOlder(r: Option<LeafCandidate>, f: Forest, keys: set<string>) {
    forall q | LeafAt(f, q) && q[0] in keys :: r.Some? && r.value.lastAccess <= StampAt(f, q)
  }

  lemma LeafBelow(f: Forest, h: string, c: LeafCandidate, ns: string, prefix: seq<string>)
    requires h in f && FoundIn(c, f[h].children, ns, prefix + [h])
    ensures FoundIn(c, f, ns, prefix)
  {
    var q := c.path.hashes[|prefix|..];
    assert q[1..] == c.path.hashes[|prefix + [h]|..];
    assert q[0] == h;
  }

  lemma LeafHere(f: Forest, h: string, ns: string, prefix: seq<string>)
    requires h in f && f[h].children == map[]
    ensures FoundIn(LeafCandidate(Path(ns, prefix + [h]), f[h].lastAccess), f, ns, prefix)
    ensures forall q | LeafAt(f, q) && q[0] == h :: StampAt(f, q) == f[h].lastAccess
  {
    assert (prefix + [h])[|prefix|..] == [h];
    assert forall q | q != [] && q[0] == h && |q| > 1 :: Find(f, q) == Find(map[], q[1..]);
  }

  lemma InnerLeaves(f: Forest, h: string, r: Option<LeafCandidate>)
    requires h in f && f[h].children != map[]
    requires NoOlder(r, f[h].children, f[h].children.Keys)
    ensures NoOlder(r, f, {h})
  {
    forall q | LeafAt(f, q) && q[0] in {h} ensures r.Some? && r.value.lastAccess <= StampAt(f, q) {
      assert |q| > 1;
      assert LeafAt(f[h].children, q[1..]) && StampAt(f[h].children, q[1..]) == StampAt(f, q);
    }
  }

  /** A one-to-one assignment of pins to as many nodes leaves no pin over. */
  lemma PinsAreNodes(view: map<Path, Entry>, issued: set<string>, pins: map<string, seq<BlockId>>, k: string)
    requires PinsOk(view, issued, pins) && k in pins
    ensures exists p :: p in view && view[p].pinKey == k
  {
    PinKeysCard(view, view.Keys);
    var keys := PinKeysOf(view, view.Keys);
    assert keys <= pins.Keys;
    if k !in keys {
      assert keys <= pins.Keys - {k};
      SubsetCard(keys, pins.Keys - {k});
    }
  }

  ghost function PinKeysOf(view: map<Path, Entry>, ps: set<Path>): set<string>
    requires ps <= view.Keys
  {
    set p | p in ps :: view[p].pinKey
  }

  lemma {:induction false} PinKeysCard(view: map<Path, Entry>, ps: set<Path>)
    requires KeysDistinct(view) && ps <= view.Keys
    ensures |PinKeysOf(view, ps)| == |ps|
    decreases ps
  {
    if ps != {} {
      var p :| p in ps;
      PinKeysCard(view, ps - {p});
      assert PinKeysOf(view, ps) == PinKeysOf(view, ps - {p}) + {view[p].pinKey};
    }
  }

  lemma {:induction false} SubsetCard<T>(a: set<T>, b: set<T>)
    requires a <= b
    ensures |a| <= |b|
  {
    if a != {} {
      var x :| x in a;
      SubsetCard(a - {x}, b - {x});
    }
  }

  lemma {:induction false} PutLengthStops(view: map<Path, Entry>, refcounts: seq<nat>, ns: string, hashes: seq<string>,
                                          blocks: seq<BlockId>, n: nat, count: nat)
    requires n < count <= |hashes| && count <= |blocks|
    requires PutLength(view, refcounts, ns, hashes, blocks, n) == n
    requires Prefix(ns, hashes, n + 1) !in view && !IsLive(refcounts, blocks[n])
    ensures PutLength(view, refcounts, ns, hashes, blocks, count) == n
  {
    if n + 1 < count {
      PutLengthStops(view, refcounts, ns, hashes, blocks, n, count - 1);
    }
  }

  lemma RemoveLeafKeeps(roots: map<string, Forest>, view: map<Path, Entry>, nodeCount: nat, clock: nat,
                        issued: set<string>, pins: map<string, seq<BlockId>>, p: Path)
    requires TreeOk(roots, view, nodeCount, clock, issued, pins) && IsLeaf(view, p)
    ensures p.hashes != [] && p.ns in roots && Find(roots[p.ns], p.hashes).Some?
    ensures Find(roots[p.ns], p.hashes).value.pinKey == view[p].pinKey && nodeCount > 0
    ensures TreeOk(roots[p.ns := Prune(roots[p.ns], p.hashes)], view - {p}, nodeCount - 1, clock, issued,
                   pins - {view[p].pinKey})
    ensures view[p].pinKey in pins
  {
    LeafMeansNoChildren(roots, view, p);
    PruneShows(roots, view, p);
    RemoveKeeps(view, p, clock, issued, pins);
  }

  lemma AddRoot(roots: map<string, Forest>, view: map<Path, Entry>, ns: string)
    requires Shows(roots, view) && ns !in roots
    ensures Shows(roots[ns := map[]], view)
  {
    forall p: Path ensures Look(roots[ns := map[]], p) == if p in view then Some(view[p]) else None {
      assert Look(roots, p) == if p in view then Some(view[p]) else None;
    }
  }

  lemma SingleBlock(refcounts: seq<nat>, block: BlockId)
    ensures LiveAndDistinct(refcounts, [block]) <==> IsLive(refcounts, block)
    ensures IsLive(refcounts, block) ==>
      forall b :: IsLive(Bump(refcounts, [block]), b) <==> IsLive(refcounts, b)
  {
    assert [block][0] == block;
  }

  // ---------------------------------------------------------------- the cache

  class RadixPrefixCache {
    const capacity: nat
    const kv: PagedKvCache
    var roots: map<string, Forest>
    var nodeCount: nat
    var accessClock: nat
    var nextPinId: nat
    ghost var view: map<Path, Entry>

    ghost predicate Valid()
      reads this, kv
    {
      && capacity > 0
      && kv.Valid()
      && TreeOk(roots, view, nodeCount, accessClock, Issued(nextPinId), kv.pins)
    }

    constructor (capacity: nat, kv: PagedKvCache)
      requires capacity > 0 && kv.Valid() && kv.pins == map[]
      ensures Valid() && view == map[] && this.capacity == capacity && this.kv == kv
    {
      this.capacity, this.kv := capacity, kv;
      roots, view := map[], map[];
      nodeCount, accessClock, nextPinId := 0, 0, 0;
    }

    /** Stamps one existing node with the next clock value. */
    method Visit(p: Path)
      requires Valid() && p in view
      modifies this
      ensures Valid()
      ensures view == old(view)[p := old(view)[p].(lastAccess := old(accessClock) + 1)]
      ensures accessClock == old(accessClock) + 1 && nextPinId == old(nextPinId) && nodeCount == old(nodeCount)
      ensures p.hashes != [] && p.ns in old(roots) && p.ns in roots
      ensures Find(old(roots)[p.ns], p.hashes).Some? && Find(roots[p.ns], p.hashes).Some?
      ensures Find(roots[p.ns], p.hashes).value.children == Find(old(roots)[p.ns], p.hashes).value.children
    {
      hide Consistent, Shows, StampsOk, PinsOk;
      KnownAttaches(roots, view, p);
      var node := Find(roots[p.ns], p.hashes).value;
      var e := EntryOf(node).(lastAccess := accessClock + 1);
      VisitKeeps(roots, view, nodeCount, accessClock, Issued(nextPinId), kv.pins, p, e);
      FindPlaced(roots[p.ns], p.hashes, e);
      accessClock := accessClock + 1;
      roots := PlaceAt(roots, p, e);
      view := view[p := e];
    }

    /** The longest cached prefix, its blocks from the root down, and fresh stamps on the way. */
    method GetLongest(ns: string, hashes: seq<string>) returns (r: Option<Match>)
      requires Valid()
      modifies this
      ensures Valid()
      ensures nextPinId == old(nextPinId) && nodeCount == old(nodeCount)
      ensures r.Some? ==> r.value.matchedBlockCount == |r.value.blocks| > 0
      ensures var n := if r.Some? then r.value.matchedBlockCount else 0;
        && IsLongest(old(view), ns, hashes, n)
        && (forall i | 0 <= i < n :: r.value.blocks[i] == old(view)[Prefix(ns, hashes, i + 1)].block)
        && view == Touched(old(view), old(accessClock), ns, hashes, n)
        && accessClock == old(accessClock) + n
    {
      hide Consistent, Shows, StampsOk, PinsOk, Touched, IsLongest, Decimal, Look, Find, PrefixClosed;
      ShowsPrefixClosed(roots, view);
      TouchedNothing(view, accessClock, ns, hashes);
      if ns !in roots {
        NoSuchNamespace(roots, view, ns, hashes);
        return None;
      }
      ghost var v0, c0 := view, accessClock;
      var children := roots[ns];
      var blocks: seq<BlockId> := [];
      var i := 0;
      while i < |hashes| && hashes[i] in children
        invariant Valid() && nextPinId == old(nextPinId) && nodeCount == old(nodeCount) && ns in roots
        invariant 0 <= i <= |hashes| && |blocks| == i
        invariant forall k | 0 < k <= i :: Prefix(ns, hashes, k) in v0
        invariant forall k | 0 <= k < i :: blocks[k] == v0[Prefix(ns, hashes, k + 1)].block
        invariant view == Touched(v0, c0, ns, hashes, i) && accessClock == c0 + i
        invariant Below(roots, ns, hashes[..i], children)
      {
        ChildStep(roots, view, ns, hashes, i, children);
        TouchedStep(v0, c0, ns, hashes, i);
        blocks := blocks + [children[hashes[i]].block];
        children := children[hashes[i]].children;
        Visit(Path(ns, hashes[..i + 1]));
        i := i + 1;
      }
      if i < |hashes| {
        ChildStep(roots, view, ns, hashes, i, children);
      }
      FirstMissing(v0, c0, ns, hashes, i);
      if blocks == [] {
        return None;
      }
      return Some(Match(blocks, |blocks|));
    }

    static lemma NotFound(roots: map<string, Forest>, view: map<Path, Entry>, p: Path)
      requires Shows(roots, view) && p !in view && p.hashes != [] && p.ns in roots
      ensures Find(roots[p.ns], p.hashes).None?
    {
      assert Look(roots, p).None?;
    }

    static lemma NoSuchNamespace(roots: map<string, Forest>, view: map<Path, Entry>, ns: string, hashes: seq<string>)
      requires Shows(roots, view) && ns !in roots
      ensures IsLongest(view, ns, hashes, 0)
    {
      forall k | 0 < k <= |hashes| ensures Prefix(ns, hashes, k) !in view {
        assert Look(roots, Prefix(ns, hashes, k)).None?;
      }
    }

    /** `children` is what the source's pointer designates after walking `walked`. */
    static ghost predicate Below(roots: map<string, Forest>, ns: string, walked: seq<string>, children: Forest) {
      ns in roots &&
      if walked == [] then children == roots[ns]
      else Find(roots[ns], walked).Some? && children == Find(roots[ns], walked).value.children
    }

    static lemma ChildStep(roots: map<string, Forest>, view: map<Path, Entry>, ns: string, hashes: seq<string>, i: nat, children: Forest)
      requires Shows(roots, view) && i < |hashes|
      requires Below(roots, ns, hashes[..i], children)
      ensures hashes[i] in children <==> Prefix(ns, hashes, i + 1) in view
      ensures hashes[i] in children ==>
        && Find(roots[ns], hashes[..i + 1]) == Some(children[hashes[i]])
        && view[Prefix(ns, hashes, i + 1)] == EntryOf(children[hashes[i]])
    {
      var p := Prefix(ns, hashes, i + 1);
      assert hashes[..i + 1] == hashes[..i] + [hashes[i]];
      if i > 0 {
        FindExtend(roots[ns], hashes[..i], hashes[i]);
      }
      assert Look(roots, p) == if p in view then Some(view[p]) else None;
    }

    /** Adds one node below an existing one, if its block can be pinned. */
    method InsertNode(p: Path, block: BlockId) returns (ok: bool)
      requires Valid() && p !in view && p.hashes != [] && p.ns in roots
      requires |p.hashes| > 1 ==> Prefix(p.ns, p.hashes, |p.hashes| - 1) in view
      modifies this, kv
      ensures Valid()
      ensures kv.sequences == old(kv.sequences) && |kv.refcounts| == |old(kv.refcounts)|
      ensures forall b :: IsLive(kv.refcounts, b) <==> IsLive(old(kv.refcounts), b)
      ensures ok <==> IsLive(old(kv.refcounts), block)
      ensures !ok ==> view == old(view) && nodeCount == old(nodeCount) && accessClock == old(accessClock)
      ensures ok ==>
        && view == old(view)[p := Entry(block, PinKey(old(nextPinId)), old(accessClock) + 1)]
        && nextPinId == old(nextPinId) + 1 && accessClock == old(accessClock) + 1
        && p.ns in roots && Find(roots[p.ns], p.hashes).Some?
        && Find(roots[p.ns], p.hashes).value.children == map[]
    {
      hide Consistent, StampsOk, Backed, KeysDistinct, Decimal, PinKey, Shows, Look, Bump, LiveAndDistinct, IsLive, Place, Attached, Find;
      var e := Entry(block, PinKey(nextPinId), accessClock + 1);
      NextKeyIsFresh(nextPinId, nextPinId);
      ParentAttaches(roots, view, p);
      NotFound(roots, view, p);
      SingleBlock(kv.refcounts, block);
      InsertKeeps(roots, view, nodeCount, accessClock, Issued(nextPinId), kv.pins, p, e);
      MoreIssued(roots, view, nodeCount, accessClock, Issued(nextPinId), kv.pins, Issued(nextPinId + 1));
      nextPinId := nextPinId + 1;
      ok := kv.PinPrefix(e.pinKey, [block]);
      if ok {
        AddNode(p, e);
      }
    }

    /** Hangs a pinned node into the tree. */
    method AddNode(p: Path, e: Entry)
      requires capacity > 0 && kv.Valid()
      requires p.hashes != [] && p.ns in roots && Attached(roots[p.ns], p.hashes)
      requires Find(roots[p.ns], p.hashes).None?
      requires TreeOk(PlaceAt(roots, p, e), view[p := e], nodeCount + 1, accessClock + 1, Issued(nextPinId), kv.pins)
      modifies this
      ensures Valid()
      ensures view == old(view)[p := e] && accessClock == old(accessClock) + 1 && nextPinId == old(nextPinId)
      ensures p.ns in roots && Find(roots[p.ns], p.hashes).Some?
      ensures Find(roots[p.ns], p.hashes).value.children == map[]
    {
      hide Consistent, TreeOk, Decimal;
      FindPlaced(roots[p.ns], p.hashes, e);
      accessClock := accessClock + 1;
      roots := PlaceAt(roots, p, e);
      view := view[p := e];
      nodeCount := nodeCount + 1;
    }

    /** Depth-first search for the oldest leaf; siblings are taken in any order. */
    method FindOldestLeaf(children: Forest, ghost bound: Node, ns: string, prefix: seq<string>,
                          candidate: Option<LeafCandidate>) returns (r: Option<LeafCandidate>)
      requires bound.children == children
      ensures r == candidate || (r.Some? && FoundIn(r.value, children, ns, prefix))
      ensures candidate.Some? ==> r.Some? && r.value.lastAccess <= candidate.value.lastAccess
      ensures NoOlder(r, children, children.Keys)
      ensures children != map[] ==> r.Some?
      decreases bound
    {
      r := candidate;
      var rest := children.Keys;
      while rest != {}
        invariant rest <= children.Keys
        invariant r == candidate || (r.Some? && FoundIn(r.value, children, ns, prefix))
        invariant candidate.Some? ==> r.Some? && r.value.lastAccess <= candidate.value.lastAccess
        invariant NoOlder(r, children, children.Keys - rest)
        invariant rest != children.Keys ==> r.Some?
        decreases rest
      {
        var key :| key in rest;
        r := VisitChild(children, bound, key, ns, prefix, r, children.Keys - rest);
        rest := rest - {key};
      }
      assert children.Keys - rest == children.Keys;
    }

    /** One child of the search: a leaf competes itself, an inner node sends its subtree. */
    method VisitChild(children: Forest, ghost bound: Node, key: string, ns: string, prefix: seq<string>,
                      candidate: Option<LeafCandidate>, ghost seen: set<string>) returns (r: Option<LeafCandidate>)
      requires bound.children == children && key in children
      requires NoOlder(candidate, children, seen)
      ensures r == candidate || (r.Some? && FoundIn(r.value, children, ns, prefix))
      ensures candidate.Some? ==> r.value.lastAccess <= candidate.value.lastAccess
      ensures r.Some?
      ensures NoOlder(r, children, seen + {key})
      decreases bound, 0
    {
      var node := children[key];
      if node.children != map[] {
        r := FindOldestLeaf(node.children, node, ns, prefix + [key], candidate);
        InnerLeaves(children, key, r);
        if r != candidate {
          LeafBelow(children, key, r.value, ns, prefix);
        }
        return;
      }
      LeafHere(children, key, ns, prefix);
      if candidate.None? || node.lastAccess < candidate.value.lastAccess {
        return Some(LeafCandidate(Path(ns, prefix + [key]), node.lastAccess));
      }
      return candidate;
    }

    static ghost predicate ScanOk(r: Option<LeafCandidate>, view: map<Path, Entry>, done: set<string>) {
      && (r.Some? ==> IsLeaf(view, r.value.path) && r.value.lastAccess == view[r.value.path].lastAccess)
      && (forall p | IsLeaf(view, p) && p.ns in done :: r.Some? && r.value.lastAccess <= view[p].lastAccess)
      && (forall p | p in view && p.ns in done :: r.Some?)
    }

    static lemma ScanStep(roots: map<string, Forest>, view: map<Path, Entry>, done: set<string>, ns: string,
                          r: Option<LeafCandidate>, r': Option<LeafCandidate>)
      requires Shows(roots, view) && ns in roots && ScanOk(r, view, done)
      requires r' == r || (r'.Some? && FoundIn(r'.value, roots[ns], ns, []))
      requires r.Some? ==> r'.Some? && r'.value.lastAccess <= r.value.lastAccess
      requires NoOlder(r', roots[ns], roots[ns].Keys)
      requires roots[ns] != map[] ==> r'.Some?
      ensures ScanOk(r', view, done + {ns})
    {
      if r' != r {
        var c := r'.value;
        assert c.path.hashes[0..] == c.path.hashes;
        assert Look(roots, c.path) == Some(EntryOf(Find(roots[ns], c.path.hashes).value));
        LeafMeansNoChildren(roots, view, c.path);
      }
      forall p | IsLeaf(view, p) && p.ns == ns ensures r'.Some? && r'.value.lastAccess <= view[p].lastAccess {
        LeafMeansNoChildren(roots, view, p);
        assert LeafAt(roots[ns], p.hashes) && StampAt(roots[ns], p.hashes) == view[p].lastAccess;
      }
      forall p | p in view && p.ns == ns ensures r'.Some? {
        LeafMeansNoChildren(roots, view, p);
      }
    }

    method ScanRoots() returns (r: Option<LeafCandidate>)
      requires Shows(roots, view)
      ensures r.None? <==> view == map[]
      ensures r.Some? ==> IsOldestLeaf(view, r.value.path)
    {
      r := None;
      var rest := roots.Keys;
      while rest != {}
        invariant rest <= roots.Keys
        invariant ScanOk(r, view, roots.Keys - rest)
        decreases rest
      {
        hide ScanOk, Shows, NoOlder, FoundIn;
        var ns :| ns in rest;
        ghost var bound := Node(0, "", 0, roots[ns]);
        var next := FindOldestLeaf(roots[ns], bound, ns, [], r);
        ScanStep(roots, view, roots.Keys - rest, ns, r, next);
        assert roots.Keys - rest + {ns} == roots.Keys - (rest - {ns});
        r := next;
        rest := rest - {ns};
      }
      forall p | p in view ensures p.ns in roots.Keys {
        assert Look(roots, p).Some?;
      }
    }

    /** Removes the unique least recently used leaf and unpins its block. */
    method EvictOldest() returns (evicted: bool)
      requires Valid()
      modifies this, kv
      ensures Valid()
      ensures accessClock == old(accessClock) && nextPinId == old(nextPinId)
      ensures evicted <==> old(view) != map[]
      ensures !evicted ==> view == old(view) && kv.View() == old(kv.View())
      ensures nodeCount == old(nodeCount) - if evicted then 1 else 0
      ensures evicted ==>
        && HasOldestLeaf(old(view)) && view == old(view) - {OldestLeaf(old(view))}
        && old(view)[OldestLeaf(old(view))].pinKey in old(kv.pins)
        && kv.View() == UnpinnedView(old(kv.View()), old(view)[OldestLeaf(old(view))].pinKey)
    {
      hide Consistent, Shows, StampsOk, PinsOk, IsOldestLeaf, Decimal, UnpinnedView, Prune;
      var candidate := ScanRoots();
      if candidate.None? {
        return false;
      }
      var p := candidate.value.path;
      TheOldest(roots, view, nodeCount, accessClock, Issued(nextPinId), kv.pins, p);
      RemoveLeafKeeps(roots, view, nodeCount, accessClock, Issued(nextPinId), kv.pins, p);
      var node := Find(roots[p.ns], p.hashes).value;
      var found := kv.UnpinPrefix(node.pinKey);
      KeysAfterUnpin(old(kv.View()), node.pinKey);
      roots := roots[p.ns := Prune(roots[p.ns], p.hashes)];
      nodeCount := nodeCount - 1;
      view := view - {p};
      return true;
    }

    static lemma KeysAfterUnpin(v: Kv, key: string)
      requires key in v.pins
      ensures UnpinnedView(v, key).pins == v.pins - {key}
      ensures UnpinnedView(v, key).sequences == v.sequences
    {
    }

    static lemma TheOldest(roots: map<string, Forest>, view: map<Path, Entry>, nodeCount: nat, clock: nat,
                           issued: set<string>, pins: map<string, seq<BlockId>>, p: Path)
      requires TreeOk(roots, view, nodeCount, clock, issued, pins) && IsOldestLeaf(view, p)
      ensures HasOldestLeaf(view) && OldestLeaf(view) == p && IsLeaf(view, p)
    {
      OldestLeafUnique(view, p, OldestLeaf(view));
    }

    /** One block of a put: stamp the known prefix, or pin the block and add a node. */
    method PutOne(ns: string, hashes: seq<string>, i: nat, block: BlockId, known: bool) returns (ok: bool)
      requires Valid() && i < |hashes| && ns in roots
      requires known <==> Prefix(ns, hashes, i + 1) in view
      requires i > 0 ==> Prefix(ns, hashes, i) in view
      modifies this, kv
      ensures Valid()
      ensures kv.sequences == old(kv.sequences) && |kv.refcounts| == |old(kv.refcounts)|
      ensures forall b :: IsLive(kv.refcounts, b) <==> IsLive(old(kv.refcounts), b)
      ensures ok <==> known || IsLive(old(kv.refcounts), block)
      ensures !ok ==> view == old(view)
      ensures ok ==>
        && var p := Prefix(ns, hashes, i + 1);
        && accessClock == old(accessClock) + 1
        && view == old(view)[p := if known then old(view)[p].(lastAccess := old(accessClock) + 1)
                                  else Entry(block, PinKey(old(nextPinId)), old(accessClock) + 1)]
        && nextPinId == old(nextPinId) + (if known then 0 else 1)
        && ns in roots && Find(roots[ns], p.hashes).Some?
        && (known ==> ns in old(roots) && Find(old(roots)[ns], p.hashes).Some?
                      && Find(roots[ns], p.hashes).value.children == Find(old(roots)[ns], p.hashes).value.children)
        && (!known ==> Find(roots[ns], p.hashes).value.children == map[])
    {
      hide Consistent, TreeOk, IsLive, Decimal, PinKey, Find;
      var p := Path(ns, hashes[..i + 1]);
      assert hashes[..i + 1][..i] == hashes[..i];
      if known {
        Visit(p);
        return true;
      }
      ok := InsertNode(p, block);
    }

    /** Loop invariant of PutBlockPrefixes: `i` blocks are in, and `children` is where the walk stands. */
    static ghost predicate PutOk(v0: map<Path, Entry>, n0: nat, c0: nat, refs0: seq<nat>, ns: string, hashes: seq<string>,
                                 blocks: seq<BlockId>, i: nat, view: map<Path, Entry>, nextPin: nat, clock: nat)
      requires i <= |hashes| && i <= |blocks|
    {
      && Insertion(view, nextPin) == Inserted(v0, n0, c0, ns, hashes, blocks, i)
      && clock == c0 + i
      && PutLength(v0, refs0, ns, hashes, blocks, i) == i
    }

    static lemma PutNext(v0: map<Path, Entry>, n0: nat, c0: nat, refs0: seq<nat>, ns: string, hashes: seq<string>,
                         blocks: seq<BlockId>, i: nat, view: map<Path, Entry>, nextPin: nat, clock: nat, known: bool)
      requires i < |hashes| && i < |blocks|
      requires PutOk(v0, n0, c0, refs0, ns, hashes, blocks, i, view, nextPin, clock)
      requires known <==> Prefix(ns, hashes, i + 1) in view
      ensures known <==> Prefix(ns, hashes, i + 1) in v0
      ensures i > 0 ==> Prefix(ns, hashes, i) in view
      ensures known || IsLive(refs0, blocks[i]) ==>
        var p := Prefix(ns, hashes, i + 1);
        PutOk(v0, n0, c0, refs0, ns, hashes, blocks, i + 1,
              view[p := if known then view[p].(lastAccess := clock + 1) else Entry(blocks[i], PinKey(nextPin), clock + 1)],
              nextPin + (if known then 0 else 1), clock + 1)
    {
      hide Decimal, PinKey;
      InsertedKeys(v0, n0, c0, ns, hashes, blocks, i);
    }

    /** Evicts until the node budget holds; the source's early exit is never taken. */
    method EvictToCapacity()
      requires Valid()
      modifies this, kv
      ensures Valid()
      ensures accessClock == old(accessClock) && nextPinId == old(nextPinId)
      ensures view == EvictedTo(old(view), capacity) && |view| <= capacity
      ensures kv.sequences == old(kv.sequences) && |kv.refcounts| == |old(kv.refcounts)|
    {
      hide Consistent, Shows, StampsOk, PinsOk, HasOldestLeaf, Decimal, Drop, Released;
      while nodeCount > capacity
        invariant Valid() && nodeCount == |view|
        invariant accessClock == old(accessClock) && nextPinId == old(nextPinId)
        invariant EvictedTo(view, capacity) == EvictedTo(old(view), capacity)
        invariant kv.sequences == old(kv.sequences) && |kv.refcounts| == |old(kv.refcounts)|
        decreases nodeCount
      {
        ghost var v := view;
        var evicted := EvictOldest();
        assert |v| > 0 && v != map[];
        if !evicted {
          break;
        }
        assert (v - {OldestLeaf(v)}).Keys == v.Keys - {OldestLeaf(v)};
      }
    }

    /** Adds the prompt's blocks below its longest cached prefix, then trims to capacity. */
    method PutBlockPrefixes(ns: string, hashes: seq<string>, blocks: seq<BlockId>) returns (inserted: nat)
      requires Valid()
      modifies this, kv
      ensures Valid()
      ensures kv.sequences == old(kv.sequences) && |kv.refcounts| == |old(kv.refcounts)|
      ensures var count := Min(|hashes|, |blocks|);
        var n := PutLength(old(view), old(kv.refcounts), ns, hashes, blocks, count);
        var put := Inserted(old(view), old(nextPinId), old(accessClock), ns, hashes, blocks, n);
        view == EvictedTo(put.view, capacity) && inserted == put.nextPin - old(nextPinId)
      ensures |view| <= capacity
    {
      hide Consistent, Shows, StampsOk, PinsOk, Decimal, IsLive, PutLength, Inserted, EvictedTo;
      if ns !in roots {
        AddRoot(roots, view, ns);
        roots := roots[ns := map[]];
      }
      inserted := PutWalk(ns, hashes, blocks, Min(|hashes|, |blocks|));
      EvictToCapacity();
    }

    /** The insertion loop: walks down from the namespace's root. */
    method PutWalk(ns: string, hashes: seq<string>, blocks: seq<BlockId>, count: nat) returns (inserted: nat)
      requires Valid() && ns in roots && count <= |hashes| && count <= |blocks|
      modifies this, kv
      ensures Valid()
      ensures kv.sequences == old(kv.sequences) && |kv.refcounts| == |old(kv.refcounts)|
      ensures var n := PutLength(old(view), old(kv.refcounts), ns, hashes, blocks, count);
        Insertion(view, old(nextPinId) + inserted)
        == Inserted(old(view), old(nextPinId), old(accessClock), ns, hashes, blocks, n)
    {
      hide Consistent, TreeOk, PutOk, Decimal, PinKey, IsLive, PutLength, Inserted, Find;
      ghost var v0, n0, c0, refs0 := view, nextPinId, accessClock, kv.refcounts;
      var children := roots[ns];
      inserted := 0;
      PutStart(v0, n0, c0, refs0, ns, hashes, blocks);
      var i := 0;
      while i < count
        invariant 0 <= i <= count && Valid() && ns in roots
        invariant kv.sequences == old(kv.sequences) && |kv.refcounts| == |refs0|
        invariant forall b :: IsLive(kv.refcounts, b) <==> IsLive(refs0, b)
        invariant PutOk(v0, n0, c0, refs0, ns, hashes, blocks, i, view, n0 + inserted, c0 + i)
        invariant nextPinId == n0 + inserted && accessClock == c0 + i
        invariant Below(roots, ns, hashes[..i], children)
      {
        PutChild(roots, view, nodeCount, accessClock, Issued(nextPinId), kv.pins, ns, hashes, i, children);
        var known := hashes[i] in children;
        PutNext(v0, n0, c0, refs0, ns, hashes, blocks, i, view, nextPinId, accessClock, known);
        var ok := PutOne(ns, hashes, i, blocks[i], known);
        if !ok {
          PutLengthIs(v0, n0, c0, refs0, ns, hashes, blocks, i, view, n0 + inserted, c0 + i);
          PutLengthStops(v0, refs0, ns, hashes, blocks, i, count);
          return;
        }
        if known {
          children := children[hashes[i]].children;
        } else {
          children := map[];
          inserted := inserted + 1;
        }
        i := i + 1;
      }
      PutLengthIs(v0, n0, c0, refs0, ns, hashes, blocks, i, view, n0 + inserted, c0 + i);
    }

    static lemma PutChild(roots: map<string, Forest>, view: map<Path, Entry>, nodeCount: nat, clock: nat,
                          issued: set<string>, pins: map<string, seq<BlockId>>, ns: string, hashes: seq<string>, i: nat,
                          children: Forest)
      requires TreeOk(roots, view, nodeCount, clock, issued, pins) && i < |hashes|
      requires Below(roots, ns, hashes[..i], children)
      ensures hashes[i] in children <==> Prefix(ns, hashes, i + 1) in view
      ensures hashes[i] in children ==> Find(roots[ns], hashes[..i + 1]) == Some(children[hashes[i]])
    {
      ChildStep(roots, view, ns, hashes, i, children);
    }

    static lemma PutStart(v0: map<Path, Entry>, n0: nat, c0: nat, refs0: seq<nat>, ns: string, hashes: seq<string>,
                          blocks: seq<BlockId>)
      ensures PutOk(v0, n0, c0, refs0, ns, hashes, blocks, 0, v0, n0, c0)
    {
    }

    static lemma PutLengthIs(v0: map<Path, Entry>, n0: nat, c0: nat, refs0: seq<nat>, ns: string, hashes: seq<string>,
                             blocks: seq<BlockId>, i: nat, view: map<Path, Entry>, nextPin: nat, clock: nat)
      requires i <= |hashes| && i <= |blocks|
      requires PutOk(v0, n0, c0, refs0, ns, hashes, blocks, i, view, nextPin, clock)
      ensures PutLength(v0, refs0, ns, hashes, blocks, i) == i
      ensures view == Inserted(v0, n0, c0, ns, hashes, blocks, i).view
      ensures nextPin == Inserted(v0, n0, c0, ns, hashes, blocks, i).nextPin
    {
    }

    /** No node of the forest under one of the given hashes still has its pin. */
    static ghost predicate Unpinned(f: Forest, keys: set<string>, pins: map<string, seq<BlockId>>) {
      forall q | q != [] && q[0] in keys && Find(f, q).Some? :: Find(f, q).value.pinKey !in pins
    }

    static lemma UnpinnedChild(f: Forest, keys: set<string>, h: string, before: map<string, seq<BlockId>>,
                               after: map<string, seq<BlockId>>)
      requires h in f && Unpinned(f, keys, before) && after.Keys <= before.Keys
      requires Unpinned(f[h].children, f[h].children.Keys, after) && f[h].pinKey !in after
      ensures Unpinned(f, keys + {h}, after)
    {
      forall q | q != [] && q[0] in keys + {h} && Find(f, q).Some? ensures Find(f, q).value.pinKey !in after {
        if q[0] == h && |q| > 1 {
          assert Find(f, q) == Find(f[h].children, q[1..]);
        }
      }
    }

    /** Some node of the forest under one of the given hashes has the pin key `k`. */
    static ghost predicate HasPin(f: Forest, keys: set<string>, k: string) {
      exists q :: q != [] && q[0] in keys && Find(f, q).Some? && Find(f, q).value.pinKey == k
    }

    /** Pins that belong to no such node are still there, with their blocks. */
    static ghost predicate Spared(f: Forest, keys: set<string>, before: map<string, seq<BlockId>>,
                                  after: map<string, seq<BlockId>>) {
      forall k | k in before && !HasPin(f, keys, k) :: k in after && after[k] == before[k]
    }

    static lemma SparedChild(f: Forest, keys: set<string>, h: string, before: map<string, seq<BlockId>>,
                             middle: map<string, seq<BlockId>>, after: map<string, seq<BlockId>>)
      requires h in f && Spared(f, keys, before, middle) && Spared(f[h].children, f[h].children.Keys, middle, after)
      ensures Spared(f, keys + {h}, before, after - {f[h].pinKey})
    {
      forall k | k in before && !HasPin(f, keys + {h}, k)
        ensures k in after && after[k] == before[k] && k != f[h].pinKey
      {
        NoPinBelow(f, keys, h, k);
      }
    }

    static lemma NoPinBelow(f: Forest, keys: set<string>, h: string, k: string)
      requires h in f && !HasPin(f, keys + {h}, k)
      ensures !HasPin(f, keys, k) && !HasPin(f[h].children, f[h].children.Keys, k) && f[h].pinKey != k
    {
      assert Find(f, [h]) == Some(f[h]) && [h][0] == h;
      forall q | q != [] && q[0] in f[h].children.Keys && Find(f[h].children, q).Some?
        ensures Find(f[h].children, q).value.pinKey != k
      {
        assert ([h] + q)[1..] == q;
        assert Find(f, [h] + q) == Find(f[h].children, q);
      }
    }

    static lemma NothingSpared(f: Forest, pins: map<string, seq<BlockId>>)
      ensures Spared(f, {}, pins, pins)
    {
    }

    /** Releases every pin of a subtree, children before their parent, and no other pin. */
    method UnpinTree(children: Forest, ghost bound: Node)
      requires kv.Valid() && bound.children == children
      modifies kv
      ensures kv.Valid()
      ensures kv.sequences == old(kv.sequences) && |kv.refcounts| == |old(kv.refcounts)|
      ensures kv.pins.Keys <= old(kv.pins.Keys)
      ensures Unpinned(children, children.Keys, kv.pins)
      ensures Spared(children, children.Keys, old(kv.pins), kv.pins)
      decreases bound
    {
      hide Consistent, Drop, Released, HasPin, Spared;
      var rest := children.Keys;
      NothingSpared(children, kv.pins);
      assert children.Keys - rest == {};
      while rest != {}
        invariant rest <= children.Keys && kv.Valid()
        invariant kv.sequences == old(kv.sequences) && |kv.refcounts| == |old(kv.refcounts)|
        invariant kv.pins.Keys <= old(kv.pins.Keys)
        invariant Unpinned(children, children.Keys - rest, kv.pins)
        invariant Spared(children, children.Keys - rest, old(kv.pins), kv.pins)
        decreases rest
      {
        hide Consistent, Drop, Released, Unpinned, Find;
        var key :| key in rest;
        var node := children[key];
        ghost var before := kv.pins;
        UnpinTree(node.children, node);
        ghost var middle := kv.pins;
        var found := kv.UnpinPrefix(node.pinKey);
        UnpinnedMonotone(node.children, node.children.Keys, middle, kv.pins);
        assert kv.pins == middle - {node.pinKey};
        UnpinnedChild(children, children.Keys - rest, key, before, kv.pins);
        SparedChild(children, children.Keys - rest, key, old(kv.pins), before, middle);
        assert children.Keys - rest + {key} == children.Keys - (rest - {key});
        rest := rest - {key};
      }
      assert children.Keys - rest == children.Keys;
    }

    static lemma UnpinnedMonotone(f: Forest, keys: set<string>, before: map<string, seq<BlockId>>,
                                  after: map<string, seq<BlockId>>)
      requires Unpinned(f, keys, before) && after.Keys <= before.Keys
      ensures Unpinned(f, keys, after)
    {
    }

    /** The namespaces in `done` have been released. */
    static ghost predicate Cleared(roots: map<string, Forest>, done: set<string>, pins: map<string, seq<BlockId>>) {
      forall ns | ns in done && ns in roots :: Unpinned(roots[ns], roots[ns].Keys, pins)
    }

    static lemma NothingPinned(roots: map<string, Forest>, view: map<Path, Entry>, nodeCount: nat, clock: nat,
                               issued: set<string>, before: map<string, seq<BlockId>>, after: map<string, seq<BlockId>>)
      requires TreeOk(roots, view, nodeCount, clock, issued, before)
      requires Cleared(roots, roots.Keys, after) && after.Keys <= before.Keys
      ensures after == map[]
    {
      if after != map[] {
        var k :| k in after;
        PinsAreNodes(view, issued, before, k);
        var p :| p in view && view[p].pinKey == k;
        LeafMeansNoChildren(roots, view, p);
        assert false;
      }
    }

    /** Drops the whole tree: every pin of the cache is gone, sequences keep their blocks. */
    method Clear()
      requires Valid()
      modifies this, kv
      ensures Valid()
      ensures view == map[] && kv.pins == map[]
      ensures kv.sequences == old(kv.sequences) && |kv.refcounts| == |old(kv.refcounts)|
      ensures accessClock == old(accessClock) && nextPinId == old(nextPinId)
    {
      hide Consistent, TreeOk, Unpinned, Decimal;
      var rest := roots.Keys;
      while rest != {}
        invariant rest <= roots.Keys && kv.Valid()
        invariant kv.sequences == old(kv.sequences) && |kv.refcounts| == |old(kv.refcounts)|
        invariant kv.pins.Keys <= old(kv.pins.Keys)
        invariant Cleared(roots, roots.Keys - rest, kv.pins)
        invariant roots == old(roots) && accessClock == old(accessClock) && nextPinId == old(nextPinId)
        decreases rest
      {
        var ns :| ns in rest;
        ghost var before := kv.pins;
        UnpinTree(roots[ns], Node(0, "", 0, roots[ns]));
        forall m | m in roots.Keys - rest ensures Unpinned(roots[m], roots[m].Keys, kv.pins) {
          UnpinnedMonotone(roots[m], roots[m].Keys, before, kv.pins);
        }
        rest := rest - {ns};
      }
      assert roots.Keys - rest == roots.Keys;
      NothingPinned(roots, old(view), old(nodeCount), accessClock, Issued(nextPinId), old(kv.pins), kv.pins);
      roots, view, nodeCount := map[], map[], 0;
      EmptyTree(accessClock, Issued(nextPinId));
    }

    static lemma EmptyTree(clock: nat, issued: set<string>)
      ensures TreeOk(map[], map[], 0, clock, issued, map[])
    {
    }
  }
}
