/**
 The tree of cached prompt blocks behind cpp/src/radix_prefix_cache.cpp, and the flat map it
 represents.

 A forest maps a block hash to a node; each node owns the forest of its continuations. `Shows`
 relates the per-namespace forests to a map from (namespace, hash list) to the stored entry. The
 lemmas say what the two in-place edits of the source, overwriting a node and erasing a leaf, do to
 that map.
 */
module RadixTree {
  import opened Text
  import opened PagedKv

  datatype Node = Node(block: BlockId, pinKey: string, lastAccess: nat, children: map<string, Node>)

  datatype Entry = Entry(block: BlockId, pinKey: string, lastAccess: nat)

  datatype Path = Path(ns: string, hashes: seq<string>)

  type Forest = map<string, Node>

  function EntryOf(n: Node): Entry {
    Entry(n.block, n.pinKey, n.lastAccess)
  }

  function Find(f: Forest, path: seq<string>): Option<Node>
    requires path != []
    decreases |path|
  {
    if path[0] !in f then None
    else if |path| == 1 then Some(f[path[0]])
    else Find(f[path[0]].children, path[1..])
  }

  /** Every node strictly above `path` exists. */
  predicate Attached(f: Forest, path: seq<string>)
    requires path != []
    decreases |path|
  {
    |path| == 1 || (path[0] in f && Attached(f[path[0]].children, path[1..]))
  }

  /** Writes an entry at `path`, keeping the subtree below it if the node exists already. */
  function Place(f: Forest, path: seq<string>, e: Entry): Forest
    requires path != [] && Attached(f, path)
    decreases |path|
  {
    var h := path[0];
    if |path| == 1 then
      f[h := Node(e.block, e.pinKey, e.lastAccess, if h in f then f[h].children else map[])]
    else
      f[h := f[h].(children := Place(f[h].children, path[1..], e))]
  }

  /** Erases the node at `path`. */
  function Prune(f: Forest, path: seq<string>): Forest
    requires path != [] && Find(f, path).Some?
    decreases |path|
  {
    var h := path[0];
    if |path| == 1 then f - {h}
    else f[h := f[h].(children := Prune(f[h].children, path[1..]))]
  }

  function Look(roots: map<string, Forest>, p: Path): Option<Entry> {
    if p.hashes == [] || p.ns !in roots then None
    else match Find(roots[p.ns], p.hashes)
      case None => None
      case Some(n) => Some(EntryOf(n))
  }

  /** The forests represent exactly the flat map `view`. */
  ghost predicate Shows(roots: map<string, Forest>, view: map<Path, Entry>) {
    forall p: Path :: Look(roots, p) == if p in view then Some(view[p]) else None
  }

  ghost predicate PrefixClosed(view: map<Path, Entry>) {
    forall p | p in view :: p.hashes != [] && forall n | 0 < n <= |p.hashes| :: Path(p.ns, p.hashes[..n]) in view
  }

  // ---------------------------------------------------------------- walking down the tree

  lemma {:induction false} FindPrefix(f: Forest, path: seq<string>, n: nat)
    requires 0 < n <= |path| && Find(f, path).Some?
    ensures Find(f, path[..n]).Some?
    decreases |path|
  {
    if n > 1 {
      FindPrefix(f[path[0]].children, path[1..], n - 1);
      assert path[..n][1..] == path[1..][..n - 1];
    }
  }

  lemma {:induction false} FindExtend(f: Forest, path: seq<string>, h: string)
    requires path != [] && Find(f, path).Some?
    ensures var c := Find(f, path).value.children;
      Find(f, path + [h]) == if h in c then Some(c[h]) else None
    decreases |path|
  {
    if |path| == 1 {
      assert (path + [h])[1..] == [h];
    } else {
      FindExtend(f[path[0]].children, path[1..], h);
      assert (path + [h])[1..] == path[1..] + [h];
    }
  }

  /** A child of an existing node may be attached. */
  lemma {:induction false} AttachedBelow(f: Forest, path: seq<string>)
    requires path != []
    requires |path| > 1 ==> Find(f, path[..|path| - 1]).Some?
    ensures Attached(f, path)
    decreases |path|
  {
    if |path| > 1 {
      var init := path[..|path| - 1];
      if |path| > 2 {
        assert init[1..] == path[1..][..|path| - 2];
      }
      AttachedBelow(f[path[0]].children, path[1..]);
    }
  }

  lemma ShowsPrefixClosed(roots: map<string, Forest>, view: map<Path, Entry>)
    requires Shows(roots, view)
    ensures PrefixClosed(view)
  {
    forall p, n | p in view && 0 < n <= |p.hashes|
      ensures Path(p.ns, p.hashes[..n]) in view
    {
      assert Look(roots, p).Some?;
      FindPrefix(roots[p.ns], p.hashes, n);
      assert Look(roots, Path(p.ns, p.hashes[..n])).Some?;
    }
    forall p | p in view ensures p.hashes != [] {
      assert Look(roots, p).Some?;
    }
  }

  // ---------------------------------------------------------------- the two edits

  lemma {:induction false} FindPlaced(f: Forest, path: seq<string>, e: Entry)
    requires path != [] && Attached(f, path)
    ensures var old' := Find(f, path);
      Find(Place(f, path, e), path)
      == Some(Node(e.block, e.pinKey, e.lastAccess, if old'.Some? then old'.value.children else map[]))
    decreases |path|
  {
    if |path| > 1 {
      FindPlaced(f[path[0]].children, path[1..], e);
    }
  }

  function Entries(n: Option<Node>): Option<Entry> {
    match n
    case None => None
    case Some(v) => Some(EntryOf(v))
  }

  lemma {:induction false} FindPlacedOther(f: Forest, path: seq<string>, e: Entry, q: seq<string>)
    requires path != [] && Attached(f, path) && q != [] && q != path
    ensures Entries(Find(Place(f, path, e), q)) == Entries(Find(f, q))
    decreases |path|
  {
    var g := Place(f, path, e);
    if q[0] != path[0] || |q| == 1 {
      if q[0] == path[0] {
        assert |path| > 1;
      }
    } else if |path| == 1 {
      if path[0] !in f {
        assert Find(g, q) == Find(map[], q[1..]);
      }
    } else {
      assert q[1..] != path[1..] by {
        assert q == [q[0]] + q[1..] && path == [path[0]] + path[1..];
      }
      FindPlacedOther(f[path[0]].children, path[1..], e, q[1..]);
    }
  }

  lemma {:induction false} FindPruned(f: Forest, path: seq<string>, q: seq<string>)
    requires path != [] && Find(f, path).Some? && Find(f, path).value.children == map[]
    requires q != []
    ensures Entries(Find(Prune(f, path), q)) == if q == path then None else Entries(Find(f, q))
    decreases |path|
  {
    if q[0] != path[0] {
    } else if |path| == 1 {
      if |q| > 1 {
        assert Find(f, q) == Find(map[], q[1..]) == None;
      }
    } else if |q| > 1 {
      assert (q[1..] == path[1..]) == (q == path) by {
        assert q == [q[0]] + q[1..] && path == [path[0]] + path[1..];
      }
      FindPruned(f[path[0]].children, path[1..], q[1..]);
    }
  }

  /** Overwriting or adding a node is a point update of the flat map. */
  lemma PlaceShows(roots: map<string, Forest>, view: map<Path, Entry>, p: Path, e: Entry)
    requires Shows(roots, view)
    requires p.hashes != [] && p.ns in roots && Attached(roots[p.ns], p.hashes)
    ensures Shows(roots[p.ns := Place(roots[p.ns], p.hashes, e)], view[p := e])
  {
    var roots' := roots[p.ns := Place(roots[p.ns], p.hashes, e)];
    forall q: Path
      ensures Look(roots', q) == if q in view[p := e] then Some(view[p := e][q]) else None
    {
      assert Look(roots, q) == if q in view then Some(view[q]) else None;
      if q.ns == p.ns && q.hashes != [] {
        if q.hashes == p.hashes {
          FindPlaced(roots[p.ns], p.hashes, e);
        } else {
          FindPlacedOther(roots[p.ns], p.hashes, e, q.hashes);
        }
      }
    }
  }

  /** Erasing a leaf deletes one key of the flat map. */
  lemma PruneShows(roots: map<string, Forest>, view: map<Path, Entry>, p: Path)
    requires Shows(roots, view)
    requires p.hashes != [] && p.ns in roots && Find(roots[p.ns], p.hashes).Some?
    requires Find(roots[p.ns], p.hashes).value.children == map[]
    ensures Shows(roots[p.ns := Prune(roots[p.ns], p.hashes)], view - {p})
  {
    var roots' := roots[p.ns := Prune(roots[p.ns], p.hashes)];
    forall q: Path
      ensures Look(roots', q) == if q in view - {p} then Some((view - {p})[q]) else None
    {
      assert Look(roots, q) == if q in view then Some(view[q]) else None;
      if q.ns == p.ns && q.hashes != [] {
        FindPruned(roots[p.ns], p.hashes, q.hashes);
      }
    }
  }

  // ---------------------------------------------------------------- leaves

  ghost predicate IsLeaf(view: map<Path, Entry>, p: Path) {
    p in view && forall h :: Path(p.ns, p.hashes + [h]) !in view
  }

  ghost predicate IsOldestLeaf(view: map<Path, Entry>, p: Path) {
    IsLeaf(view, p) && forall q | IsLeaf(view, q) :: view[p].lastAccess <= view[q].lastAccess
  }

  /** Leaves of the flat map are the nodes without children. */
  lemma LeafMeansNoChildren(roots: map<string, Forest>, view: map<Path, Entry>, p: Path)
    requires Shows(roots, view) && p in view
    ensures p.hashes != [] && p.ns in roots && Find(roots[p.ns], p.hashes).Some?
    ensures view[p] == EntryOf(Find(roots[p.ns], p.hashes).value)
    ensures IsLeaf(view, p) <==> Find(roots[p.ns], p.hashes).value.children == map[]
  {
    assert Look(roots, p) == Some(view[p]);
    var n := Find(roots[p.ns], p.hashes).value;
    forall h ensures Path(p.ns, p.hashes + [h]) in view <==> h in n.children {
      FindExtend(roots[p.ns], p.hashes, h);
      var q := Path(p.ns, p.hashes + [h]);
      assert Look(roots, q) == if q in view then Some(view[q]) else None;
    }
    if n.children != map[] {
      var h :| h in n.children;
      assert Path(p.ns, p.hashes + [h]) in view;
    }
  }

  /** Distinct access stamps leave no choice: there is at most one oldest leaf. */
  lemma OldestLeafUnique(view: map<Path, Entry>, p: Path, q: Path)
    requires IsOldestLeaf(view, p) && IsOldestLeaf(view, q)
    requires forall a, b | a in view && b in view && a != b :: view[a].lastAccess != view[b].lastAccess
    ensures p == q
  {
  }
}
