/**
 The pending queue of the continuous engine (cpp/src/request_queue.cpp): a min-heap on arrival time,
 ties broken by request id. The heap's storage is kept as an unordered sequence.
 */
module Queueing {
  import opened Text
  import opened Requests

  /** The heap's comparison: `a` must be served after `b`. */
  predicate Later(a: EngineRequest, b: EngineRequest) {
    if a.arrivalTime != b.arrivalTime then a.arrivalTime > b.arrivalTime else Less(b.requestId, a.requestId)
  }

  /** Later is a strict weak order whose ties are exactly equal arrival times with equal ids. */
  lemma LaterTies(a: EngineRequest, b: EngineRequest)
    ensures !(Later(a, b) && Later(b, a))
    ensures !Later(a, b) && !Later(b, a) <==> a.arrivalTime == b.arrivalTime && a.requestId == b.requestId
  {
    LessTrichotomy(a.requestId, b.requestId);
  }

  lemma NotLaterTransitive(a: EngineRequest, b: EngineRequest, c: EngineRequest)
    requires !Later(a, b) && !Later(b, c)
    ensures !Later(a, c)
  {
    if a.arrivalTime == b.arrivalTime == c.arrivalTime && Less(c.requestId, a.requestId) {
      LessTrichotomy(a.requestId, b.requestId);
      LessTrichotomy(b.requestId, c.requestId);
      LessTrichotomy(a.requestId, c.requestId);
      if a.requestId != b.requestId && b.requestId != c.requestId {
        LessTransitive(a.requestId, b.requestId, c.requestId);
      }
    }
  }

  /** Earlier arrivals first, and among equal arrivals the least id. */
  predicate ServedFirst(a: EngineRequest, b: EngineRequest) {
    a.arrivalTime < b.arrivalTime
    || (a.arrivalTime == b.arrivalTime && (a.requestId == b.requestId || Less(a.requestId, b.requestId)))
  }

  lemma NotLaterIsFirst(a: EngineRequest, b: EngineRequest)
    ensures !Later(a, b) <==> ServedFirst(a, b)
  {
    LessTrichotomy(a.requestId, b.requestId);
  }

  function RemoveAt<T>(s: seq<T>, i: nat): (r: seq<T>)
    requires i < |s|
    ensures |r| == |s| - 1
  {
    s[..i] + s[i + 1..]
  }

  class RequestQueue {
    var items: seq<EngineRequest>

    constructor ()
      ensures items == []
    {
      items := [];
    }

    method Push(request: EngineRequest)
      modifies this
      ensures items == old(items) + [request]
    {
      items := items + [request];
    }

    /** The heap's top: no request precedes it. */
    method Top() returns (at: nat)
      requires items != []
      ensures at < |items|
      ensures forall i | 0 <= i < |items| :: !Later(items[at], items[i])
    {
      at := 0;
      LaterTies(items[0], items[0]);
      for i := 1 to |items|
        invariant 0 <= at < |items|
        invariant forall j | 0 <= j < i :: !Later(items[at], items[j])
      {
        if Later(items[at], items[i]) {
          forall j | 0 <= j < i ensures !Later(items[i], items[j]) {
            LaterTies(items[at], items[i]);
            NotLaterTransitive(items[i], items[at], items[j]);
          }
          LaterTies(items[i], items[i]);
          at := i;
        }
      }
    }

    /** Removes the earliest request if it has arrived; otherwise nothing has arrived yet. */
    method PopReady(now: int) returns (r: Option<EngineRequest>, ghost at: nat)
      modifies this
      ensures r.None? ==> items == old(items) && forall i | 0 <= i < |items| :: items[i].arrivalTime > now
      ensures r.Some? ==>
        && at < |old(items)| && r.value == old(items)[at] && items == RemoveAt(old(items), at)
        && r.value.arrivalTime <= now
        && (forall i | 0 <= i < |old(items)| :: !Later(r.value, old(items)[i]))
        && (forall i | 0 <= i < |old(items)| :: ServedFirst(r.value, old(items)[i]))
    {
      at := 0;
      if items == [] {
        return None, 0;
      }
      var top := Top();
      if items[top].arrivalTime > now {
        return None, 0;
      }
      r, at := Some(items[top]), top;
      forall i | 0 <= i < |items| ensures ServedFirst(r.value, items[i]) {
        NotLaterIsFirst(r.value, items[i]);
      }
      items := RemoveAt(items, top);
    }

    method NextArrival() returns (r: Option<int>)
      ensures r.None? <==> items == []
      ensures r.Some? ==> (exists i | 0 <= i < |items| :: items[i].arrivalTime == r.value)
                          && forall i | 0 <= i < |items| :: r.value <= items[i].arrivalTime
    {
      if items == [] {
        return None;
      }
      var top := Top();
      return Some(items[top].arrivalTime);
    }
  }
}
