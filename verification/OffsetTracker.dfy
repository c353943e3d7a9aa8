/**
 Contiguous offset tracking (cpp/src/offset_tracker.cpp). The history fields `base` and `marks` record
 where the tracker started and every offset reported complete.
 */
module OffsetTracking {
  datatype Tracker = Tracker(base: int, marks: set<int>, committed: int, completed: set<int>)

  function NewTracker(committed: int): Tracker {
    Tracker(committed, {}, committed, {})
  }

  /** The end of the run of completed offsets that starts after `committed`. */
  function RunEnd(committed: int, completed: set<int>): int
    decreases completed
  {
    if committed + 1 in completed then RunEnd(committed + 1, completed - {committed + 1}) else committed
  }

  function Above(completed: set<int>, committed: int): set<int> {
    set o | o in completed && o > committed
  }

  function Completed(t: Tracker, offset: int): Tracker {
    var marked := t.(marks := t.marks + {offset});
    if offset <= t.committed then marked
    else
      var all := t.completed + {offset};
      var end := RunEnd(t.committed, all);
      marked.(committed := end, completed := Above(all, end))
  }

  /** The committed offset ends the unbroken run of marks after the base; the set holds the marks beyond it. */
  ghost predicate TrackerOk(t: Tracker) {
    && t.base <= t.committed
    && (forall o | t.base < o <= t.committed :: o in t.marks)
    && t.committed + 1 !in t.marks
    && t.completed == Above(t.marks, t.committed)
  }

  lemma {:induction false} RunEndFacts(committed: int, completed: set<int>)
    ensures var end := RunEnd(committed, completed);
      end >= committed && end + 1 !in completed && forall o | committed < o <= end :: o in completed
    decreases completed
  {
    if committed + 1 in completed {
      RunEndFacts(committed + 1, completed - {committed + 1});
    }
  }

  lemma CompletedKeeps(t: Tracker, offset: int)
    requires TrackerOk(t)
    ensures TrackerOk(Completed(t, offset)) && Completed(t, offset).committed >= t.committed
  {
    RunEndFacts(t.committed, t.completed + {offset});
  }

  lemma CompletedRecords(t: Tracker, offset: int)
    ensures Completed(t, offset).base == t.base && Completed(t, offset).marks == t.marks + {offset}
  {
  }

  /** The committed offset depends on which offsets completed, not on their order. */
  lemma OrderIsIrrelevant(t: Tracker, u: Tracker)
    requires TrackerOk(t) && TrackerOk(u) && t.base == u.base && t.marks == u.marks
    ensures t == u
  {
    assert t.base < t.committed + 1 <= u.committed ==> t.committed + 1 in u.marks;
    assert u.base < u.committed + 1 <= t.committed ==> u.committed + 1 in t.marks;
  }

  class ContiguousOffsetTracker {
    var committedOffset: int
    var completed: set<int>
    ghost var base: int
    ghost var marks: set<int>

    ghost function View(): Tracker
      reads this
    {
      Tracker(base, marks, committedOffset, completed)
    }

    ghost predicate Valid()
      reads this
    {
      TrackerOk(View())
    }

    constructor (committedOffset: int)
      ensures Valid() && View() == NewTracker(committedOffset)
    {
      this.committedOffset, completed, base, marks := committedOffset, {}, committedOffset, {};
    }

    method MarkPublishComplete(offset: int) returns (safe: int)
      requires Valid()
      modifies this
      ensures Valid() && View() == Completed(old(View()), offset) && safe == committedOffset
    {
      CompletedKeeps(View(), offset);
      marks := marks + {offset};
      if offset <= committedOffset {
        return committedOffset;
      }
      completed := completed + {offset};
      ghost var all := completed;
      while committedOffset + 1 in completed
        invariant base == old(base) && marks == old(marks) + {offset} && old(committedOffset) <= committedOffset
        invariant completed == Above(all, committedOffset)
        invariant RunEnd(old(committedOffset), all) == RunEnd(committedOffset, completed)
        decreases completed
      {
        completed := completed - {committedOffset + 1};
        committedOffset := committedOffset + 1;
      }
      return committedOffset;
    }
  }
}
