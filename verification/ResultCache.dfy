/**
 The bounded least-recently-used result cache (cpp/src/result_cache.cpp).

 The ghost field `stack` lists every key ever put, most recent touch first (a touch is a put or a
 hit), and `lastPut` remembers the last value put under each. The invariant says that the cache is
 always exactly the top of that stack.
 */
module ResultCaching {
  import opened Text
  import opened PagedKv

  /** The key moved to the front. */
  function Front(s: seq<string>, key: string): seq<string> {
    [key] + Without(s, key)
  }

  function Without(s: seq<string>, key: string): seq<string> {
    if s == [] then []
    else (if s[0] == key then [] else [s[0]]) + Without(s[1..], key)
  }

  function Top(s: seq<string>, n: nat): seq<string> {
    if n == 0 || s == [] then [] else [s[0]] + Top(s[1..], n - 1)
  }

  lemma {:induction false} WithoutFacts(s: seq<string>, key: string)
    requires Distinct(s)
    ensures forall k :: k in Without(s, key) <==> k in s && k != key
    ensures Distinct(Without(s, key))
    ensures |Without(s, key)| == |s| - if key in s then 1 else 0
    ensures key !in s ==> Without(s, key) == s
  {
    if s != [] {
      WithoutFacts(s[1..], key);
      assert s == [s[0]] + s[1..];
      assert s[0] !in s[1..];
    }
  }

  lemma {:induction false} TopIsPrefix(s: seq<string>, n: nat)
    ensures Top(s, n) == if |s| <= n then s else s[..n]
  {
    if n > 0 && s != [] {
      TopIsPrefix(s[1..], n - 1);
      assert s == [s[0]] + s[1..];
      if |s| > n {
        assert s[..n] == [s[0]] + s[1..][..n - 1];
      }
    }
  }

  lemma TopMembers(s: seq<string>, n: nat)
    requires Distinct(s)
    ensures Distinct(Top(s, n)) && forall k | k in Top(s, n) :: k in s
  {
    hide Top;
    TopIsPrefix(s, n);
  }

  /** The stack property: the top of the reordered stack is the reordered top. */
  lemma {:induction false} TopWithout(s: seq<string>, key: string, n: nat)
    requires Distinct(s) && n > 0
    ensures key in Top(s, n) ==> Top(Without(s, key), n - 1) == Without(Top(s, n), key)
    ensures key !in Top(s, n) ==> Top(Without(s, key), n - 1) == Top(s, n - 1)
  {
    if s != [] {
      var rest := s[1..];
      assert Top(s, n)[1..] == Top(rest, n - 1);
      if s[0] == key {
        TopWithoutHead(s, n);
      } else if n > 1 {
        TopWithout(rest, key, n - 1);
        assert Without(s, key)[1..] == Without(rest, key);
      }
    }
  }

  lemma TopWithoutHead(s: seq<string>, n: nat)
    requires Distinct(s) && n > 0 && s != []
    ensures Top(Without(s, s[0]), n - 1) == Without(Top(s, n), s[0])
  {
    var key, rest := s[0], s[1..];
    assert s == [key] + rest && key !in rest;
    WithoutFacts(rest, key);
    TopMembers(rest, n - 1);
    WithoutFacts(Top(rest, n - 1), key);
    assert Top(s, n)[1..] == Top(rest, n - 1);
    assert Without(s, key) == rest;
    assert Without(Top(s, n), key) == Without(Top(rest, n - 1), key);
  }

  lemma TopFront(s: seq<string>, key: string, n: nat)
    requires Distinct(s) && n > 0
    ensures Distinct(Front(s, key))
    ensures forall k :: k in Front(s, key) <==> k in s || k == key
    ensures key in Top(s, n) ==> Top(Front(s, key), n) == Front(Top(s, n), key)
    ensures key !in Top(s, n) ==> Top(Front(s, key), n) == [key] + Top(s, n - 1)
  {
    WithoutFacts(s, key);
    TopWithout(s, key, n);
    assert Front(s, key)[1..] == Without(s, key);
  }

  /** Making room: dropping the last key of a full top, or nothing. */
  lemma TopMakesRoom(s: seq<string>, n: nat)
    requires n > 0
    ensures |Top(s, n)| <= n
    ensures |Top(s, n)| == n ==> Top(s, n - 1) == Top(s, n)[..n - 1]
    ensures |Top(s, n)| < n ==> Top(s, n - 1) == Top(s, n)
  {
    hide Top;
    TopIsPrefix(s, n);
    TopIsPrefix(s, n - 1);
  }

  lemma EntriesCard(recency: seq<string>, entries: map<string, string>)
    requires Distinct(recency) && forall k :: k in entries <==> k in recency
    ensures |entries| == |recency|
  {
    DistinctCard(recency);
    assert Elements(recency) == entries.Keys;
  }

  /** The real fields are the top of the ghost stack, with the last values put. */
  ghost predicate Agrees(capacity: nat, stack: seq<string>, lastPut: map<string, string>, recency: seq<string>,
                         entries: map<string, string>) {
    && capacity > 0
    && Distinct(stack) && (forall k :: k in stack <==> k in lastPut)
    && recency == Top(stack, capacity)
    && (forall k :: k in entries <==> k in recency)
    && (forall k | k in entries :: k in lastPut && entries[k] == lastPut[k])
  }

  lemma TouchAgrees(capacity: nat, stack: seq<string>, lastPut: map<string, string>, recency: seq<string>,
                    entries: map<string, string>, key: string, value: string)
    requires Agrees(capacity, stack, lastPut, recency, entries) && key in entries
    ensures Agrees(capacity, Front(stack, key), lastPut[key := value], Front(recency, key), entries[key := value])
  {
    hide Top, Front, Distinct;
    TopFront(stack, key, capacity);
    TopMembers(stack, capacity);
    FrontMembers(recency, key);
  }

  lemma HitAgrees(capacity: nat, stack: seq<string>, lastPut: map<string, string>, recency: seq<string>,
                  entries: map<string, string>, key: string)
    requires Agrees(capacity, stack, lastPut, recency, entries) && key in entries
    ensures Agrees(capacity, Front(stack, key), lastPut, Front(recency, key), entries)
  {
    hide Top, Front, Distinct;
    TouchAgrees(capacity, stack, lastPut, recency, entries, key, entries[key]);
    assert entries == entries[key := entries[key]] && lastPut == lastPut[key := entries[key]];
  }

  lemma FrontMembers(s: seq<string>, key: string)
    requires Distinct(s)
    ensures forall k :: k in Front(s, key) <==> k in s || k == key
  {
    WithoutFacts(s, key);
  }

  /** What a put of a new key leaves of the old entries. */
  function Room(capacity: nat, recency: seq<string>): seq<string> {
    if recency != [] && |recency| == capacity then recency[..|recency| - 1] else recency
  }

  lemma RoomFacts(capacity: nat, stack: seq<string>, recency: seq<string>)
    requires capacity > 0 && Distinct(stack) && recency == Top(stack, capacity)
    ensures Room(capacity, recency) == Top(stack, capacity - 1)
    ensures forall k | k in Room(capacity, recency) :: k in recency
    ensures recency != [] && |recency| == capacity ==>
      forall k :: k in Room(capacity, recency) <==> k in recency && k != recency[|recency| - 1]
  {
    hide Top;
    TopMakesRoom(stack, capacity);
    TopMembers(stack, capacity);
    if recency != [] {
      var n := |recency| - 1;
      assert recency == recency[..n] + [recency[n]];
    }
  }

  lemma InsertAgrees(capacity: nat, stack: seq<string>, lastPut: map<string, string>, recency: seq<string>,
                     entries: map<string, string>, key: string, value: string, kept: map<string, string>)
    requires Agrees(capacity, stack, lastPut, recency, entries) && key !in entries
    requires forall k :: k in kept <==> k in Room(capacity, recency)
    requires forall k | k in kept :: k in entries && kept[k] == entries[k]
    ensures Agrees(capacity, Front(stack, key), lastPut[key := value], [key] + Room(capacity, recency), kept[key := value])
  {
    hide Top, Front, Distinct, Room;
    TopFront(stack, key, capacity);
    RoomFacts(capacity, stack, recency);
  }

  /** What a put sees: the map is full exactly when the list is, and the last key's entry goes. */
  lemma EntriesFill(capacity: nat, stack: seq<string>, lastPut: map<string, string>, recency: seq<string>,
                    entries: map<string, string>)
    requires Agrees(capacity, stack, lastPut, recency, entries)
    ensures |entries| == |recency| && capacity > 0
    ensures |recency| == capacity ==>
      forall k :: k in entries - {recency[|recency| - 1]} <==> k in Room(capacity, recency)
    ensures |recency| != capacity ==> forall k :: k in entries <==> k in Room(capacity, recency)
  {
    hide Top, Distinct;
    RoomFacts(capacity, stack, recency);
    TopMembers(stack, capacity);
    EntriesCard(recency, entries);
  }

  class ResultCache {
    const capacity: nat
    var recency: seq<string>
    var entries: map<string, string>
    var hits: nat
    var misses: nat
    ghost var stack: seq<string>
    ghost var lastPut: map<string, string>

    ghost predicate Valid()
      reads this
    {
      Agrees(capacity, stack, lastPut, recency, entries)
    }

    constructor (capacity: nat)
      requires capacity > 0
      ensures Valid() && this.capacity == capacity && entries == map[] && stack == [] && lastPut == map[]
    {
      this.capacity := capacity;
      recency, entries, stack, lastPut := [], map[], [], map[];
      hits, misses := 0, 0;
    }

    /** A put is a touch: the key tops the stack with its new value. */
    method Put(key: string, result: string)
      requires Valid()
      modifies this
      ensures Valid()
      ensures stack == Front(old(stack), key) && lastPut == old(lastPut)[key := result]
      ensures key in entries && entries[key] == result
      ensures forall k | k in entries && k != key :: k in old(entries) && entries[k] == old(entries)[k]
      ensures hits == old(hits) && misses == old(misses)
    {
      hide Agrees, Front;
      if key in entries {
        TouchAgrees(capacity, stack, lastPut, recency, entries, key, result);
        stack, lastPut := Front(stack, key), lastPut[key := result];
        entries := entries[key := result];
        recency := Front(recency, key);
        return;
      }
      EntriesFill(capacity, stack, lastPut, recency, entries);
      ghost var recency0, entries0 := recency, entries;
      if |entries| == capacity {
        entries := entries - {recency[|recency| - 1]};
        recency := recency[..|recency| - 1];
      }
      InsertAgrees(capacity, stack, lastPut, recency0, entries0, key, result, entries);
      stack, lastPut := Front(stack, key), lastPut[key := result];
      recency := [key] + recency;
      entries := entries[key := result];
    }

    /** A hit is a touch; a miss changes nothing but the counter. */
    method Get(key: string) returns (r: Option<string>)
      requires Valid()
      modifies this
      ensures Valid() && entries == old(entries) && lastPut == old(lastPut)
      ensures r == if key in old(entries) then Some(old(entries)[key]) else None
      ensures stack == if r.Some? then Front(old(stack), key) else old(stack)
      ensures hits + misses == old(hits) + old(misses) + 1
      ensures hits == old(hits) + if r.Some? then 1 else 0
    {
      hide Agrees, Front;
      if key !in entries {
        misses := misses + 1;
        return None;
      }
      hits := hits + 1;
      HitAgrees(capacity, stack, lastPut, recency, entries, key);
      stack := Front(stack, key);
      recency := Front(recency, key);
      return Some(entries[key]);
    }

    /** The cache holds exactly the min(capacity, n) most recently touched keys, with their last values. */
    lemma HoldsMostRecent()
      requires Valid()
      ensures |entries| == if |stack| < capacity then |stack| else capacity
      ensures forall i | 0 <= i < |stack| :: stack[i] in entries <==> i < capacity
      ensures forall i | 0 <= i < |entries| :: entries[stack[i]] == lastPut[stack[i]]
    {
      hide Top;
      TopIsPrefix(stack, capacity);
      TopMembers(stack, capacity);
      EntriesCard(recency, entries);
      forall i | 0 <= i < |stack| ensures stack[i] in entries <==> i < capacity {
        if i < capacity {
          assert recency[i] == stack[i];
        }
      }
    }
  }
}
