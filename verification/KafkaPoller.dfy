/**
 The state that a router's poll thread and main loop share (cpp/src/kafka_poller.cpp). Every critical
 section under the mutex is one function on values; the class runs them in place.
 */
module KafkaPollers {
  import opened Text
  import opened DurableStores
  import opened OffsetTracking

  datatype Message = Message(source: Source, payload: seq<byte>)

  datatype Event = AssignedEvent(partitions: seq<int>) | RevokedEvent(partitions: seq<int>)

  /** A queued commit; `base` records the base of the tracker that produced it. */
  datatype Commit = Commit(partition: int, offset: int, base: int)

  datatype Poller = Poller(
    trackers: map<int, Tracker>,
    messages: seq<Message>,
    events: seq<Event>,
    commits: seq<Commit>,
    owned: set<int>)

  const Idle: Poller := Poller(map[], [], [], [], {})

  function Ids(partitions: seq<int>): set<int> {
    set p | p in partitions
  }

  /** The messages of partitions outside `ids`, in order. */
  function Outside(messages: seq<Message>, ids: set<int>): seq<Message> {
    if messages == [] then []
    else (if messages[0].source.partition in ids then [] else [messages[0]]) + Outside(messages[1..], ids)
  }

  lemma {:induction false} OutsideTwice(messages: seq<Message>, a: set<int>, b: set<int>)
    ensures Outside(Outside(messages, a), b) == Outside(messages, a + b)
  {
    if messages != [] {
      OutsideTwice(messages[1..], a, b);
      var rest := Outside(messages[1..], a);
      assert ([messages[0]] + rest)[1..] == rest && [] + rest == rest;
    }
  }

  lemma {:induction false} OutsideNone(messages: seq<Message>)
    ensures Outside(messages, {}) == messages
  {
    if messages != [] {
      OutsideNone(messages[1..]);
    }
  }

  /** What is left after a revocation is what belonged to other partitions. */
  lemma {:induction false} OutsideMembers(messages: seq<Message>, ids: set<int>)
    ensures forall m :: m in Outside(messages, ids) <==> m in messages && m.source.partition !in ids
  {
    if messages != [] {
      OutsideMembers(messages[1..], ids);
      assert messages == [messages[0]] + messages[1..];
    }
  }

  function OnAssign(p: Poller, partitions: seq<int>): Poller {
    p.(owned := p.owned + Ids(partitions), events := p.events + [AssignedEvent(partitions)])
  }

  function OnRevoke(p: Poller, partitions: seq<int>): Poller {
    var ids := Ids(partitions);
    Poller(p.trackers - ids, Outside(p.messages, ids), p.events + [RevokedEvent(partitions)], p.commits, p.owned - ids)
  }

  /** A consumed message: the first one of a partition starts its tracker just below it. */
  function OnDeliver(p: Poller, m: Message): Poller {
    var partition := m.source.partition;
    p.(trackers := if partition in p.trackers then p.trackers
                   else p.trackers[partition := NewTracker(m.source.offset - 1)],
       messages := p.messages + [m])
  }

  /** MarkPublishComplete: without a tracker nothing happens; a commit is queued when the safe offset moves. */
  function OnComplete(p: Poller, source: Source): Poller {
    if source.partition !in p.trackers then p
    else
      var before := p.trackers[source.partition];
      var after := Completed(before, source.offset);
      p.(trackers := p.trackers[source.partition := after],
         commits := if after.committed > before.committed
                    then p.commits + [Commit(source.partition, after.committed, after.base)]
                    else p.commits)
  }

  // ---------------------------------------------------------------- completions reach the commit queue

  /** The poller after a router has marked offsets of one partition complete, in this order. */
  function OnCompletes(p: Poller, partition: int, offsets: seq<int>): Poller {
    if offsets == [] then p
    else OnComplete(OnCompletes(p, partition, offsets[..|offsets| - 1]), Source(partition, offsets[|offsets| - 1]))
  }

  /** If the safe offset has moved since `from`, the last commit of the queue is for it. */
  ghost predicate Queued(p: Poller, partition: int, from: int, size: nat) {
    && partition in p.trackers && TrackerOk(p.trackers[partition]) && from <= p.trackers[partition].committed
    && size <= |p.commits|
    && (p.trackers[partition].committed > from ==>
          |p.commits| > size
          && p.commits[|p.commits| - 1] == Commit(partition, p.trackers[partition].committed, p.trackers[partition].base))
  }

  lemma {:induction false} CompletesQueue(p: Poller, partition: int, offsets: seq<int>)
    requires partition in p.trackers && TrackerOk(p.trackers[partition])
    ensures var q := OnCompletes(p, partition, offsets);
      && Queued(q, partition, p.trackers[partition].committed, |p.commits|)
      && q.trackers[partition].base == p.trackers[partition].base
      && p.trackers[partition].marks + (set o | o in offsets) <= q.trackers[partition].marks
  {
    hide TrackerOk, Completed;
    if offsets != [] {
      var n := |offsets| - 1;
      CompletesQueue(p, partition, offsets[..n]);
      var q := OnCompletes(p, partition, offsets[..n]);
      CompletedKeeps(q.trackers[partition], offsets[n]);
      CompletedRecords(q.trackers[partition], offsets[n]);
      assert offsets == offsets[..n] + [offsets[n]];
    }
  }

  /**
     Once every offset after the committed one up to `n` has been marked complete, in whatever order, a
     commit that covers `n` is queued.
   */
  lemma AllMarkedIsCommitted(p: Poller, partition: int, offsets: seq<int>, n: int)
    requires partition in p.trackers && TrackerOk(p.trackers[partition]) && p.trackers[partition].committed < n
    requires forall o | p.trackers[partition].committed < o <= n :: o in offsets || o in p.trackers[partition].marks
    ensures var q := OnCompletes(p, partition, offsets);
      && |q.commits| > |p.commits| && q.commits[|q.commits| - 1].partition == partition
      && q.commits[|q.commits| - 1].offset >= n && q.commits[|q.commits| - 1].base == p.trackers[partition].base
  {
    CompletesQueue(p, partition, offsets);
    var t, t' := p.trackers[partition], OnCompletes(p, partition, offsets).trackers[partition];
    assert t.committed < t'.committed + 1 <= n ==> t'.committed + 1 in t'.marks;
  }

  class KafkaPoller {
    var trackers: map<int, Tracker>
    var messages: seq<Message>
    var events: seq<Event>
    var commits: seq<Commit>
    var owned: set<int>

    function View(): Poller
      reads this
    {
      Poller(trackers, messages, events, commits, owned)
    }

    constructor ()
      ensures View() == Idle
    {
      trackers, messages, events, commits, owned := map[], [], [], [], {};
    }

    method Assign(partitions: seq<int>)
      modifies this
      ensures View() == OnAssign(old(View()), partitions)
    {
      for i := 0 to |partitions|
        invariant View() == old(View()).(owned := old(owned) + Ids(partitions[..i]))
      {
        assert Ids(partitions[..i + 1]) == Ids(partitions[..i]) + {partitions[i]} by {
          assert partitions[..i + 1] == partitions[..i] + [partitions[i]];
        }
        owned := owned + {partitions[i]};
      }
      assert partitions[..|partitions|] == partitions;
      events := events + [AssignedEvent(partitions)];
    }

    /** Drops ownership, tracker and queued messages of each revoked partition; queued commits stay. */
    method Revoke(partitions: seq<int>)
      modifies this
      ensures View() == OnRevoke(old(View()), partitions)
      ensures owned == old(owned) - Ids(partitions) && trackers == old(trackers) - Ids(partitions)
      ensures forall m :: m in messages <==> m in old(messages) && m.source.partition !in partitions
      ensures commits == old(commits) && events == old(events) + [RevokedEvent(partitions)]
    {
      OutsideNone(messages);
      assert Ids(partitions[..0]) == {};
      for i := 0 to |partitions|
        invariant trackers == old(trackers) - Ids(partitions[..i]) && owned == old(owned) - Ids(partitions[..i])
        invariant messages == Outside(old(messages), Ids(partitions[..i]))
        invariant events == old(events) && commits == old(commits)
      {
        var partition := partitions[i];
        assert Ids(partitions[..i + 1]) == Ids(partitions[..i]) + {partition} by {
          assert partitions[..i + 1] == partitions[..i] + [partition];
        }
        OutsideTwice(old(messages), Ids(partitions[..i]), {partition});
        owned := owned - {partition};
        trackers := trackers - {partition};
        messages := Outside(messages, {partition});
      }
      assert partitions[..|partitions|] == partitions;
      OutsideMembers(old(messages), Ids(partitions));
      events := events + [RevokedEvent(partitions)];
    }

    method Deliver(m: Message)
      modifies this
      ensures View() == OnDeliver(old(View()), m)
    {
      if m.source.partition !in trackers {
        trackers := trackers[m.source.partition := NewTracker(m.source.offset - 1)];
      }
      messages := messages + [m];
    }

    method Pop() returns (m: Option<Message>)
      modifies this`messages
      ensures m.None? <==> old(messages) == []
      ensures m.Some? ==> old(messages) == [m.value] + messages
      ensures m.None? ==> messages == []
    {
      if messages == [] {
        return None;
      }
      m := Some(messages[0]);
      messages := messages[1..];
    }

    method MarkPublishComplete(source: Source)
      modifies this
      ensures View() == OnComplete(old(View()), source)
    {
      if source.partition !in trackers {
        return;
      }
      var tracker := trackers[source.partition];
      var before := tracker.committed;
      tracker := Completed(tracker, source.offset);
      trackers := trackers[source.partition := tracker];
      if tracker.committed > before {
        commits := commits + [Commit(source.partition, tracker.committed, tracker.base)];
      }
    }
  }
}
