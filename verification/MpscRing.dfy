/**
 The bounded multi-producer single-consumer ring (cpp/include/infersched/concurrency/mpsc_ring.hpp) as
 interleavings of its shared-memory accesses. Any number of TryPush calls and one consumer take one
 access at a time, in any order; the weak compare-and-exchange may fail at will.

 Two history fields record what the code does not keep: `claims` and `owners` list the value and the
 thread of every successful compare-and-exchange, `popped` every value TryPop returned.
 */
module MpscRing {
  import opened Text
  import opened RingSlots

  type ThreadId = nat

  /** What a cell's optional value holds; a moved-from value stays in place until it is reset. */
  datatype Content<T> = Empty | Full(value: T) | MovedFrom

  datatype Cell<T> = Cell(sequence: nat, content: Content<T>)

  /** A TryPush call between two of its accesses. */
  datatype Call<T> =
    | Loaded(value: T, position: nat)
    | Compared(value: T, position: nat, sequence: nat)
    | Claimed(value: T, position: nat)
    | Stored(position: nat)

  /** The consumer between two accesses of TryPop. */
  datatype Consumer<T> =
    | Waiting
    | Examined(sequence: nat)
    | Moved(value: T)
    | Emptied(value: T)
    | Released(value: T)

  datatype Ring<T> = Ring(
    capacity: nat,
    cells: seq<Cell<T>>,
    enqueue: nat,
    dequeue: nat,
    calls: map<ThreadId, Call<T>>,
    consumer: Consumer<T>,
    claims: seq<T>,
    owners: seq<ThreadId>,
    popped: seq<T>)

  ghost predicate Shape<T>(s: Ring<T>) {
    HasSingleBit(s.capacity) && s.capacity >= 2 && |s.cells| == s.capacity
  }

  function FreshCells<T>(n: nat): (cells: seq<Cell<T>>)
    ensures |cells| == n && forall i: nat | i < n :: cells[i] == Cell(i, Empty)
  {
    seq(n, i requires 0 <= i < n => Cell(i, Empty))
  }

  function Initial<T>(capacity: nat): Ring<T> {
    Ring(capacity, FreshCells(capacity), 0, 0, map[], Waiting, [], [], [])
  }

  /** The constructor: any other capacity throws. */
  method Construct<T>(capacity: nat) returns (r: Option<Ring<T>>)
    ensures r.Some? <==> capacity >= 2 && exists k :: capacity == Pow2(k)
    ensures r.Some? ==> r.value == Initial(capacity) && Shape(r.value)
  {
    if capacity < 2 || !HasSingleBit(capacity) {
      forall k ensures !(capacity >= 2 && capacity == Pow2(k)) {
        PowerIsSingleBit(k);
      }
      return None;
    }
    ghost var k := SingleBitIsPower(capacity);
    var cells: seq<Cell<T>> := [];
    for index := 0 to capacity
      invariant cells == FreshCells(index)
    {
      cells := cells + [Cell(index, Empty)];
    }
    return Some(Ring(capacity, cells, 0, 0, map[], Waiting, [], [], []));
  }

  // ---------------------------------------------------------------- steps

  datatype Step<T> =
    | Begin(thread: ThreadId, value: T)
    | ReadSequence(thread: ThreadId)
    | Exchange(thread: ThreadId)
    | ExchangeFails(thread: ThreadId)
    | Reload(thread: ThreadId)
    | Refuse(thread: ThreadId)
    | Emplace(thread: ThreadId)
    | Publish(thread: ThreadId)
    | Examine
    | GiveUp
    | Move
    | Reset
    | Release
    | Finish

  /** The cell a position uses. */
  function CellAt<T>(s: Ring<T>, position: nat): Cell<T>
    requires Shape(s)
  {
    s.cells[Slot(s.capacity, position)]
  }

  function WithCell<T>(s: Ring<T>, position: nat, cell: Cell<T>): Ring<T>
    requires Shape(s)
  {
    s.(cells := s.cells[Slot(s.capacity, position) := cell])
  }

  ghost predicate Enabled<T>(s: Ring<T>, step: Step<T>)
    requires Shape(s)
  {
    match step
    case Begin(t, _) => t !in s.calls
    case ReadSequence(t) => t in s.calls && s.calls[t].Loaded?
    case Exchange(t) => t in s.calls && s.calls[t].Compared? && s.calls[t].sequence == s.calls[t].position == s.enqueue
    case ExchangeFails(t) => t in s.calls && s.calls[t].Compared? && s.calls[t].sequence == s.calls[t].position
    case Reload(t) => t in s.calls && s.calls[t].Compared? && s.calls[t].sequence > s.calls[t].position
    case Refuse(t) => t in s.calls && s.calls[t].Compared? && s.calls[t].sequence < s.calls[t].position
    case Emplace(t) => t in s.calls && s.calls[t].Claimed?
    case Publish(t) => t in s.calls && s.calls[t].Stored?
    case Examine => s.consumer.Waiting?
    case GiveUp => s.consumer.Examined? && s.consumer.sequence != s.dequeue + 1
    case Move => s.consumer.Examined? && s.consumer.sequence == s.dequeue + 1 && CellAt(s, s.dequeue).content.Full?
    case Reset => s.consumer.Moved?
    case Release => s.consumer.Emptied?
    case Finish => s.consumer.Released?
  }

  ghost function After<T>(s: Ring<T>, step: Step<T>): Ring<T>
    requires Shape(s) && Enabled(s, step)
  {
    match step
    case Begin(t, v) => s.(calls := s.calls[t := Loaded(v, s.enqueue)])
    case ReadSequence(t) =>
      var call := s.calls[t];
      s.(calls := s.calls[t := Compared(call.value, call.position, CellAt(s, call.position).sequence)])
    case Exchange(t) =>
      s.(enqueue := s.enqueue + 1, claims := s.claims + [s.calls[t].value], owners := s.owners + [t],
         calls := s.calls[t := Claimed(s.calls[t].value, s.enqueue)])
    case ExchangeFails(t) => s.(calls := s.calls[t := Loaded(s.calls[t].value, s.enqueue)])
    case Reload(t) => s.(calls := s.calls[t := Loaded(s.calls[t].value, s.enqueue)])
    case Refuse(t) => s.(calls := s.calls - {t})
    case Emplace(t) =>
      var call := s.calls[t];
      WithCell(s, call.position, CellAt(s, call.position).(content := Full(call.value)))
        .(calls := s.calls[t := Stored(call.position)])
    case Publish(t) =>
      var position := s.calls[t].position;
      WithCell(s, position, CellAt(s, position).(sequence := position + 1)).(calls := s.calls - {t})
    case Examine => s.(consumer := Examined(CellAt(s, s.dequeue).sequence))
    case GiveUp => s.(consumer := Waiting)
    case Move =>
      var cell := CellAt(s, s.dequeue);
      WithCell(s, s.dequeue, cell.(content := MovedFrom)).(consumer := Moved(cell.content.value))
    case Reset =>
      WithCell(s, s.dequeue, CellAt(s, s.dequeue).(content := Empty)).(consumer := Emptied(s.consumer.value))
    case Release =>
      WithCell(s, s.dequeue, CellAt(s, s.dequeue).(sequence := s.dequeue + s.capacity))
        .(consumer := Released(s.consumer.value))
    case Finish => s.(dequeue := s.dequeue + 1, popped := s.popped + [s.consumer.value], consumer := Waiting)
  }

  // ---------------------------------------------------------------- the invariant

  /** The first position whose cell the consumer has not given back. */
  function Low<T>(s: Ring<T>): nat {
    if s.consumer.Released? then s.dequeue + 1 else s.dequeue
  }

  /** Positions claimed and not given back. */
  ghost function Outstanding<T>(s: Ring<T>): int {
    s.enqueue - Low(s)
  }

  ghost predicate Counters<T>(s: Ring<T>) {
    && s.dequeue <= Low(s) <= s.enqueue <= Low(s) + s.capacity
    && |s.claims| == |s.owners| == s.enqueue
    && s.popped == s.claims[..s.dequeue]
  }

  /** Between its claim and its publication a call alone may touch the cell. */
  predicate Owns<T>(call: Call<T>, position: nat) {
    (call.Claimed? || call.Stored?) && call.position == position
  }

  ghost predicate CellOk<T>(s: Ring<T>, p: nat)
    requires Shape(s) && Counters(s) && p < Low(s) + s.capacity
  {
    var cell := CellAt(s, p);
    if p >= s.enqueue then cell == Cell(p, Empty)
    else if cell.sequence == p then s.owners[p] in s.calls && Owns(s.calls[s.owners[p]], p)
    else
      && cell.sequence == p + 1
      && cell.content == if p == s.dequeue && s.consumer.Moved? then MovedFrom
                         else if p == s.dequeue && s.consumer.Emptied? then Empty
                         else Full(s.claims[p])
  }

  ghost predicate CallOk<T>(s: Ring<T>, t: ThreadId, call: Call<T>)
    requires Shape(s) && Counters(s)
  {
    match call
    case Loaded(_, p) => p <= s.enqueue
    case Compared(_, p, n) => p <= s.enqueue && n <= CellAt(s, p).sequence
    case Claimed(v, p) =>
      Low(s) <= p < s.enqueue && s.owners[p] == t && s.claims[p] == v && CellAt(s, p) == Cell(p, Empty)
    case Stored(p) => Low(s) <= p < s.enqueue && s.owners[p] == t && CellAt(s, p) == Cell(p, Full(s.claims[p]))
  }

  ghost predicate ConsumerOk<T>(s: Ring<T>)
    requires Shape(s) && Counters(s)
  {
    match s.consumer
    case Waiting => true
    case Examined(n) =>
      n == s.dequeue || (n == s.dequeue + 1 && s.dequeue < s.enqueue && CellAt(s, s.dequeue).sequence == s.dequeue + 1)
    case Moved(v) => s.dequeue < s.enqueue && CellAt(s, s.dequeue).sequence == s.dequeue + 1 && v == s.claims[s.dequeue]
    case Emptied(v) => s.dequeue < s.enqueue && CellAt(s, s.dequeue).sequence == s.dequeue + 1 && v == s.claims[s.dequeue]
    case Released(v) => v == s.claims[s.dequeue]
  }

  ghost predicate Inv<T>(s: Ring<T>) {
    && Shape(s) && Counters(s) && ConsumerOk(s)
    && (forall p | Low(s) <= p < Low(s) + s.capacity :: CellOk(s, p))
    && (forall t | t in s.calls :: CallOk(s, t, s.calls[t]))
  }

  lemma InitialInv<T>(capacity: nat)
    requires HasSingleBit(capacity) && capacity >= 2
    ensures Inv(Initial<T>(capacity))
  {
    hide Slot, HasSingleBit;
    var s := Initial<T>(capacity);
    forall p | Low(s) <= p < Low(s) + s.capacity ensures CellOk(s, p) {
      SlotIsRemainder(capacity, p);
      RemainderIs(p, capacity, 0, p);
    }
  }

  /** Writing the cell of one position of the current lap leaves the others' cells alone. */
  lemma OtherCells<T>(s: Ring<T>, lo: nat, p: nat, cell: Cell<T>)
    requires Shape(s) && lo <= p < lo + s.capacity
    ensures Shape(WithCell(s, p, cell)) && CellAt(WithCell(s, p, cell), p) == cell
    ensures forall q | lo <= q < lo + s.capacity && q != p :: CellAt(WithCell(s, p, cell), q) == CellAt(s, q)
  {
    hide Slot;
    forall q | lo <= q < lo + s.capacity && q != p
      ensures CellAt(WithCell(s, p, cell), q) == CellAt(s, q)
    {
      if p < q {
        SlotsDiffer(s.capacity, p, q);
      } else {
        SlotsDiffer(s.capacity, q, p);
      }
    }
  }

  /** Reading the sequence of a possibly stale position. */
  lemma SequenceRead<T>(s: Ring<T>, p: nat)
    requires Inv(s) && p <= s.enqueue
    ensures CellAt(s, p).sequence < p <==> p == s.enqueue && Outstanding(s) == s.capacity
    ensures CellAt(s, p).sequence == p && p == s.enqueue ==> Outstanding(s) < s.capacity
  {
    hide Slot;
    var q := Representative(s.capacity, Low(s), p);
    RepresentativeSlot(s.capacity, Low(s), p);
    assert CellOk(s, q);
  }

  lemma BeginKeeps<T>(s: Ring<T>, t: ThreadId, value: T)
    requires Inv(s) && Enabled(s, Begin(t, value))
    ensures Inv(After(s, Begin(t, value)))
  {
    hide Slot;
    var s' := After(s, Begin(t, value));
    forall p | Low(s') <= p < Low(s') + s.capacity ensures CellOk(s', p) {
      assert CellOk(s, p);
    }
    forall u | u in s'.calls ensures CallOk(s', u, s'.calls[u]) {
      assert u != t ==> CallOk(s, u, s.calls[u]);
    }
  }

  /** Steps of a call that owns no cell and claims none. */
  predicate OnlyLooks<T>(step: Step<T>) {
    step.ReadSequence? || step.ExchangeFails? || step.Reload? || step.Refuse?
  }

  lemma LookKeeps<T>(s: Ring<T>, step: Step<T>)
    requires Inv(s) && Enabled(s, step) && OnlyLooks(step)
    ensures Inv(After(s, step))
  {
    hide Slot;
    var s' := After(s, step);
    assert CallOk(s, step.thread, s.calls[step.thread]);
    forall p | Low(s') <= p < Low(s') + s.capacity ensures CellOk(s', p) {
      assert CellOk(s, p);
    }
    forall u | u in s'.calls ensures CallOk(s', u, s'.calls[u]) {
      assert CallOk(s, u, s.calls[u]);
    }
  }

  lemma ExchangeKeeps<T>(s: Ring<T>, t: ThreadId)
    requires Inv(s) && Enabled(s, Exchange(t))
    ensures Inv(After(s, Exchange(t)))
    ensures Outstanding(s) < s.capacity
  {
    hide Slot;
    var s' := After(s, Exchange(t));
    assert CallOk(s, t, s.calls[t]);
    SequenceRead(s, s.enqueue);
    assert CellOk(s, s.enqueue);
    forall p | Low(s') <= p < Low(s') + s.capacity ensures CellOk(s', p) {
      assert CellOk(s, p);
    }
    forall u | u in s'.calls ensures CallOk(s', u, s'.calls[u]) {
      assert CallOk(s, u, s.calls[u]);
    }
  }

  lemma EmplaceKeeps<T>(s: Ring<T>, t: ThreadId)
    requires Inv(s) && Enabled(s, Emplace(t))
    ensures Inv(After(s, Emplace(t)))
  {
    hide Slot;
    var s', at := After(s, Emplace(t)), s.calls[t].position;
    assert CallOk(s, t, s.calls[t]);
    OtherCells(s, Low(s), at, CellAt(s', at));
    forall p | Low(s') <= p < Low(s') + s.capacity ensures CellOk(s', p) {
      assert CellOk(s, p);
    }
    forall u | u in s'.calls ensures CallOk(s', u, s'.calls[u]) {
      assert CallOk(s, u, s.calls[u]);
    }
  }

  lemma PublishKeeps<T>(s: Ring<T>, t: ThreadId)
    requires Inv(s) && Enabled(s, Publish(t))
    ensures Inv(After(s, Publish(t)))
  {
    hide Slot;
    var s', at := After(s, Publish(t)), s.calls[t].position;
    assert CallOk(s, t, s.calls[t]);
    OtherCells(s, Low(s), at, CellAt(s', at));
    forall p | Low(s') <= p < Low(s') + s.capacity ensures CellOk(s', p) {
      assert CellOk(s, p);
    }
    forall u | u in s'.calls ensures CallOk(s', u, s'.calls[u]) {
      assert CallOk(s, u, s.calls[u]);
    }
  }

  lemma ExamineKeeps<T>(s: Ring<T>, step: Step<T>)
    requires Inv(s) && (step.Examine? || step.GiveUp?) && Enabled(s, step)
    ensures Inv(After(s, step))
  {
    hide Slot;
    var s' := After(s, step);
    assert CellOk(s, s.dequeue);
    forall p | Low(s') <= p < Low(s') + s.capacity ensures CellOk(s', p) {
      assert CellOk(s, p);
    }
    forall u | u in s'.calls ensures CallOk(s', u, s'.calls[u]) {
      assert CallOk(s, u, s.calls[u]);
    }
  }

  lemma TakeKeeps<T>(s: Ring<T>, step: Step<T>)
    requires Inv(s) && (step.Move? || step.Reset?) && Enabled(s, step)
    ensures Inv(After(s, step))
  {
    hide Slot;
    var s' := After(s, step);
    assert CellOk(s, s.dequeue);
    OtherCells(s, Low(s), s.dequeue, CellAt(s', s.dequeue));
    forall p | Low(s') <= p < Low(s') + s.capacity ensures CellOk(s', p) {
      assert CellOk(s, p);
    }
    forall u | u in s'.calls ensures CallOk(s', u, s'.calls[u]) {
      assert CallOk(s, u, s.calls[u]);
    }
  }

  lemma ReleaseKeeps<T>(s: Ring<T>)
    requires Inv(s) && Enabled(s, Release)
    ensures Inv(After(s, Release))
  {
    hide Slot;
    var s' := After(s, Release);
    assert CellOk(s, s.dequeue);
    OtherCells(s, Low(s), s.dequeue, CellAt(s', s.dequeue));
    SlotWraps(s.capacity, s.dequeue);
    forall p | Low(s') <= p < Low(s') + s.capacity ensures CellOk(s', p) {
      assert p < s.dequeue + s.capacity ==> CellOk(s, p);
    }
    forall u | u in s'.calls ensures CallOk(s', u, s'.calls[u]) {
      assert CallOk(s, u, s.calls[u]);
    }
  }

  lemma FinishKeeps<T>(s: Ring<T>)
    requires Inv(s) && Enabled(s, Finish)
    ensures Inv(After(s, Finish))
  {
    hide Slot;
    var s' := After(s, Finish);
    assert s.claims[..s.dequeue + 1] == s.claims[..s.dequeue] + [s.claims[s.dequeue]];
    forall p | Low(s') <= p < Low(s') + s.capacity ensures CellOk(s', p) {
      assert CellOk(s, p);
    }
    forall u | u in s'.calls ensures CallOk(s', u, s'.calls[u]) {
      assert CallOk(s, u, s.calls[u]);
    }
  }

  /** Every step keeps the invariant. */
  lemma StepKeeps<T>(s: Ring<T>, step: Step<T>)
    requires Inv(s) && Enabled(s, step)
    ensures Inv(After(s, step))
  {
    hide Inv, After, Enabled;
    match step
    case Begin(t, v) => BeginKeeps(s, t, v);
    case Exchange(t) => ExchangeKeeps(s, t);
    case Emplace(t) => EmplaceKeeps(s, t);
    case Publish(t) => PublishKeeps(s, t);
    case Examine => ExamineKeeps(s, step);
    case GiveUp => ExamineKeeps(s, step);
    case Move => TakeKeeps(s, step);
    case Reset => TakeKeeps(s, step);
    case Release => ReleaseKeeps(s);
    case Finish => FinishKeeps(s);
    case _ => LookKeeps(s, step);
  }

  // ---------------------------------------------------------------- what the invariant says

  /** A thread is on a cell's value between its claim and its publication. */
  ghost predicate ProducerAt<T>(s: Ring<T>, t: ThreadId, slot: nat)
    requires Shape(s)
  {
    IsOwner(s, t) && Slot(s.capacity, s.calls[t].position) == slot
  }

  /** The consumer is on a cell's value from the successful sequence read until it gives the cell back. */
  ghost predicate ConsumerAt<T>(s: Ring<T>, slot: nat)
    requires Shape(s)
  {
    && Slot(s.capacity, s.dequeue) == slot
    && (s.consumer.Moved? || s.consumer.Emptied? || (s.consumer.Examined? && s.consumer.sequence == s.dequeue + 1))
  }

  /** No two threads touch a cell's value at once. */
  lemma CellsAreExclusive<T>(s: Ring<T>, t: ThreadId, u: ThreadId, slot: nat)
    requires Inv(s)
    ensures ProducerAt(s, t, slot) && ProducerAt(s, u, slot) ==> t == u
    ensures !(ProducerAt(s, t, slot) && ConsumerAt(s, slot))
  {
    hide Slot;
    if IsOwner(s, t) {
      assert CallOk(s, t, s.calls[t]);
      OwnersDiffer(s, s.dequeue, s.calls[t].position);
      if IsOwner(s, u) {
        assert CallOk(s, u, s.calls[u]);
        OwnersDiffer(s, s.calls[t].position, s.calls[u].position);
      }
    }
  }

  ghost predicate IsOwner<T>(s: Ring<T>, t: ThreadId) {
    t in s.calls && (s.calls[t].Claimed? || s.calls[t].Stored?)
  }

  lemma OwnersDiffer<T>(s: Ring<T>, p: nat, q: nat)
    requires Shape(s)
    ensures p != q && p < q + s.capacity && q < p + s.capacity ==> Slot(s.capacity, p) != Slot(s.capacity, q)
  {
    if p < q < p + s.capacity {
      SlotsDiffer(s.capacity, p, q);
    } else if q < p < q + s.capacity {
      SlotsDiffer(s.capacity, q, p);
    }
  }

  /** When TryPop reads the sequence it finds the head's value, or the head is unclaimed or still being written. */
  lemma HeadRead<T>(s: Ring<T>)
    requires Inv(s) && s.consumer.Waiting?
    ensures CellAt(s, s.dequeue).sequence == s.dequeue + 1 <==>
      s.dequeue < s.enqueue && !(s.owners[s.dequeue] in s.calls && Owns(s.calls[s.owners[s.dequeue]], s.dequeue))
    ensures CellAt(s, s.dequeue).sequence <= s.dequeue + 1
  {
    hide Slot;
    assert CellOk(s, s.dequeue);
    if s.dequeue < s.enqueue && s.owners[s.dequeue] in s.calls {
      assert CallOk(s, s.owners[s.dequeue], s.calls[s.owners[s.dequeue]]);
    }
  }

  /** TryPop's positive difference never happens, and what it moves out is the head's value. */
  lemma PopIsHead<T>(s: Ring<T>)
    requires Inv(s) && s.consumer.Examined?
    ensures s.consumer.sequence <= s.dequeue + 1
    ensures s.consumer.sequence == s.dequeue + 1 ==>
      s.dequeue < s.enqueue && CellAt(s, s.dequeue).content == Full(s.claims[s.dequeue])
  {
    hide Slot;
    assert CellOk(s, s.dequeue);
  }

  /** The values claimed and not yet given back, oldest first. */
  ghost function Queue<T>(s: Ring<T>): seq<T>
    requires Counters(s)
  {
    s.claims[Low(s)..]
  }

  /**
     The ring refines a bounded first-in first-out queue: a push takes effect when its exchange
     succeeds, a pop when it gives the cell back, and no other step changes the queue.
   */
  lemma StepRefinesQueue<T>(s: Ring<T>, step: Step<T>)
    requires Inv(s) && Enabled(s, step)
    ensures Inv(After(s, step))
    ensures var q, q' := Queue(s), Queue(After(s, step));
      match step
      case Exchange(t) => |q| < s.capacity && q' == q + [s.calls[t].value]
      case Release => q == [s.consumer.value] + q'
      case _ => q' == q
  {
    hide Slot, HasSingleBit;
    StepKeeps(s, step);
    if step.Exchange? {
      ExchangeKeeps(s, step.thread);
    }
  }

  /** A push that no other thread disturbs is accepted exactly when fewer than capacity positions are outstanding. */
  lemma PushAlone<T>(s: Ring<T>, t: ThreadId, value: T)
    requires Inv(s) && t !in s.calls
    ensures var s1 := After(s, Begin(t, value));
      && Shape(s1) && Enabled(s1, ReadSequence(t))
      && var s2 := After(s1, ReadSequence(t));
         Shape(s2) && if Outstanding(s) < s.capacity then Enabled(s2, Exchange(t)) else Enabled(s2, Refuse(t))
  {
    hide Slot, HasSingleBit;
    SequenceRead(s, s.enqueue);
    if Outstanding(s) < s.capacity {
      assert CellOk(s, s.enqueue);
    }
  }

  /** Once the oldest claim is published, the consumer's accesses go through and return its value. */
  lemma PopGoesThrough<T>(s: Ring<T>)
    requires Inv(s)
    ensures s.consumer.Waiting? && CellAt(s, s.dequeue).sequence == s.dequeue + 1 ==>
      Enabled(s, Examine) && After(s, Examine).consumer == Examined(s.dequeue + 1)
    ensures s.consumer == Examined(s.dequeue + 1) ==>
      s.dequeue < s.enqueue && Enabled(s, Move) && After(s, Move).consumer == Moved(s.claims[s.dequeue])
    ensures s.consumer.Moved? ==> Enabled(s, Reset) && After(s, Reset).consumer == Emptied(s.consumer.value)
    ensures s.consumer.Emptied? ==> Enabled(s, Release) && After(s, Release).consumer == Released(s.consumer.value)
    ensures s.consumer.Released? ==> Enabled(s, Finish) && After(s, Finish).popped == s.popped + [s.consumer.value]
  {
    hide Slot, HasSingleBit;
    assert CellOk(s, Low(s));
  }

  // ---------------------------------------------------------------- whole runs

  datatype Run<T> = Run(states: seq<Ring<T>>, steps: seq<Step<T>>)

  ghost predicate IsRun<T>(r: Run<T>, capacity: nat) {
    && HasSingleBit(capacity) && capacity >= 2
    && |r.states| == |r.steps| + 1 && r.states[0] == Initial(capacity)
    && forall i | 0 <= i < |r.steps| :: Follows(r, i)
  }

  ghost predicate Follows<T>(r: Run<T>, i: nat)
    requires i < |r.steps| && |r.states| == |r.steps| + 1
  {
    Shape(r.states[i]) && Enabled(r.states[i], r.steps[i]) && r.states[i + 1] == After(r.states[i], r.steps[i])
  }

  lemma {:induction false} RunInv<T>(r: Run<T>, capacity: nat, n: nat)
    requires IsRun(r, capacity) && n < |r.states|
    ensures Inv(r.states[n]) && r.states[n].capacity == capacity
  {
    hide Inv, Slot, HasSingleBit;
    if n == 0 {
      InitialInv<T>(capacity);
    } else {
      RunInv(r, capacity, n - 1);
      assert Follows(r, n - 1);
      StepKeeps(r.states[n - 1], r.steps[n - 1]);
    }
  }

  lemma {:induction false} ClaimsGrow<T>(r: Run<T>, capacity: nat, i: nat, n: nat)
    requires IsRun(r, capacity) && i <= n < |r.states|
    ensures r.states[i].claims <= r.states[n].claims
  {
    if i < n {
      ClaimsGrow(r, capacity, i, n - 1);
      assert Follows(r, n - 1);
    }
  }

  /**
     No loss, duplication or reordering: what was popped up to any moment is a prefix of what has been
     claimed, then and ever after, and at most capacity claims are neither popped nor given back.
   */
  lemma PoppedIsPrefixOfClaimed<T>(r: Run<T>, capacity: nat, i: nat, n: nat)
    requires IsRun(r, capacity) && i <= n < |r.states|
    ensures r.states[i].popped <= r.states[n].claims
    ensures |r.states[i].claims| == r.states[i].enqueue && |r.states[i].popped| == r.states[i].dequeue
    ensures r.states[i].dequeue <= r.states[i].enqueue <= Low(r.states[i]) + capacity
  {
    hide CellOk, CallOk, ConsumerOk, HasSingleBit;
    RunInv(r, capacity, i);
    ClaimsGrow(r, capacity, i, n);
  }

  predicate BeginsOrEnds<T>(step: Step<T>, t: ThreadId) {
    (step.Begin? || step.Refuse? || step.Publish?) && step.thread == t
  }

  /** Step `b` started the call that thread `t` is in just before step `n`. */
  ghost predicate Started<T>(r: Run<T>, t: ThreadId, b: nat, n: nat) {
    b < n <= |r.steps| && r.steps[b].Begin? && r.steps[b].thread == t
    && forall k | b < k < n :: !BeginsOrEnds(r.steps[k], t)
  }

  /** Since step `b`, thread `t` claimed position `p` by step `e` and by no other. */
  ghost predicate ClaimedOnce<T>(r: Run<T>, t: ThreadId, b: nat, e: nat, n: nat, p: nat) {
    b < e < n <= |r.steps| < |r.states| && r.steps[e] == Exchange(t) && r.states[e].enqueue == p
    && forall k | b < k < n && k != e :: r.steps[k] != Exchange(t)
  }

  ghost predicate ClaimedNever<T>(r: Run<T>, t: ThreadId, b: nat, n: nat) {
    n <= |r.steps| && forall k | b < k < n :: r.steps[k] != Exchange(t)
  }

  ghost predicate SawFull<T>(r: Run<T>, t: ThreadId, b: nat, k: nat, n: nat) {
    b < k < n <= |r.steps| < |r.states| && r.steps[k] == ReadSequence(t)
    && Outstanding(r.states[k]) == r.states[k].capacity
    && forall j | k < j < n :: r.steps[j] != ReadSequence(t)
  }

  /** Everything a running call has done so far. */
  lemma {:induction false} CallHistory<T>(r: Run<T>, capacity: nat, t: ThreadId, n: nat) returns (b: nat, e: nat)
    requires IsRun(r, capacity) && n < |r.states| && t in r.states[n].calls
    ensures Started(r, t, b, n)
    ensures match r.states[n].calls[t]
      case Loaded(v, _) => v == r.steps[b].value && ClaimedNever(r, t, b, n)
      case Compared(v, p, q) =>
        v == r.steps[b].value && ClaimedNever(r, t, b, n) && (q < p ==> SawFull(r, t, b, e, n))
      case Claimed(v, p) => v == r.steps[b].value && ClaimedOnce(r, t, b, e, n, p)
      case Stored(p) => ClaimedOnce(r, t, b, e, n, p) && p < |r.states[n].claims| && r.states[n].claims[p] == r.steps[b].value
  {
    hide Inv, Slot, HasSingleBit, Counters, Shape;
    assert n > 0;
    var s := r.states[n - 1];
    assert Follows(r, n - 1);
    var step := r.steps[n - 1];
    if step.Begin? && step.thread == t {
      b, e := n - 1, 0;
    } else {
      b, e := CallHistory(r, capacity, t, n - 1);
      RunInv(r, capacity, n - 1);
      CallFacts(s, t);
      if step == ReadSequence(t) {
        SequenceRead(s, s.calls[t].position);
        e := n - 1;
      } else if step == Exchange(t) {
        e := n - 1;
      }
      assert !BeginsOrEnds(step, t);
    }
  }

  lemma CallFacts<T>(s: Ring<T>, t: ThreadId)
    requires Inv(s) && t in s.calls
    ensures s.calls[t].position <= s.enqueue == |s.claims|
    ensures s.calls[t].Claimed? ==> s.calls[t].position < |s.claims| && s.claims[s.calls[t].position] == s.calls[t].value
    ensures s.calls[t].Stored? ==> s.calls[t].position < |s.claims|
  {
    assert CallOk(s, t, s.calls[t]);
  }

  /** A TryPush that returns true claimed exactly one position, for the value it was called with. */
  lemma TrueMeansClaimedOnce<T>(r: Run<T>, capacity: nat, t: ThreadId, n: nat) returns (b: nat, e: nat, p: nat)
    requires IsRun(r, capacity) && n < |r.steps| && r.steps[n] == Publish(t)
    ensures Started(r, t, b, n) && ClaimedOnce(r, t, b, e, n, p)
    ensures p < |r.states[n].claims| && r.states[n].claims[p] == r.steps[b].value
  {
    assert Follows(r, n);
    b, e := CallHistory(r, capacity, t, n);
    p := r.states[n].calls[t].position;
  }

  /** A TryPush that returns false claimed nothing, and at its last sequence read the ring was exactly full. */
  lemma FalseMeansFull<T>(r: Run<T>, capacity: nat, t: ThreadId, n: nat) returns (b: nat, k: nat)
    requires IsRun(r, capacity) && n < |r.steps| && r.steps[n] == Refuse(t)
    ensures Started(r, t, b, n) && ClaimedNever(r, t, b, n) && SawFull(r, t, b, k, n)
  {
    assert Follows(r, n);
    b, k := CallHistory(r, capacity, t, n);
  }

  // ---------------------------------------------------------------- a pop that misses a completed push

  /** States linked by steps. */
  ghost predicate Path<T>(states: seq<Ring<T>>, steps: seq<Step<T>>) {
    && |states| == |steps| + 1
    && forall i | 0 <= i < |steps| ::
         Shape(states[i]) && Enabled(states[i], steps[i]) && states[i + 1] == After(states[i], steps[i])
  }

  lemma JoinPaths<T>(a: seq<Ring<T>>, b: seq<Ring<T>>, x: seq<Step<T>>, y: seq<Step<T>>)
    requires Path(a, x) && Path(b, y) && a[|x|] == b[0]
    ensures Path(a + b[1..], x + y)
  {
    hide Shape, Enabled, After;
    var states, steps := a + b[1..], x + y;
    forall i | 0 <= i < |steps|
      ensures Shape(states[i]) && Enabled(states[i], steps[i]) && states[i + 1] == After(states[i], steps[i])
    {
      if i < |x| {
        assert states[i] == a[i] && states[i + 1] == a[i + 1] && steps[i] == x[i];
      } else {
        var k := i - |x|;
        assert states[i] == b[k] && states[i + 1] == b[k + 1] && steps[i] == y[k];
      }
    }
  }

  lemma TwoCells()
    ensures HasSingleBit(2) && Slot(2, 0) == 0 && Slot(2, 1) == 1
  {
    SlotIsRemainder(2, 0);
    SlotIsRemainder(2, 1);
  }

  function Claiming<T>(t: ThreadId, v: T): seq<Step<T>> {
    [Begin(t, v), ReadSequence(t), Exchange(t)]
  }

  /** Thread 0 claims position 0 and stalls; thread 1 pushes at position 1 and returns; the consumer looks. */
  function Overtaking<T>(v: T, w: T): seq<Step<T>> {
    Claiming(0, v) + (Claiming(1, w) + [Emplace(1), Publish(1), Examine, GiveUp])
  }

  /** Two cells, with position 0 claimed by thread 0. */
  function OneClaim<T>(v: T): Ring<T> {
    Ring(2, [Cell(0, Empty), Cell(1, Empty)], 1, 0, map[0 := Claimed(v, 0)], Waiting, [v], [0], [])
  }

  /** Two cells, both claimed. */
  function TwoClaims<T>(v: T, w: T): Ring<T> {
    Ring(2, [Cell(0, Empty), Cell(1, Empty)], 2, 0, map[0 := Claimed(v, 0), 1 := Claimed(w, 1)], Waiting, [v, w], [0, 1], [])
  }

  /** Position 1 is published, position 0 still is not. */
  function Overtaken<T>(v: T, w: T): Ring<T> {
    Ring(2, [Cell(0, Empty), Cell(2, Full(w))], 2, 0, map[0 := Claimed(v, 0)], Waiting, [v, w], [0, 1], [])
  }

  lemma FirstClaim<T>(v: T) returns (states: seq<Ring<T>>)
    ensures Path(states, Claiming(0, v)) && states[0] == Initial(2) && states[3] == OneClaim(v)
  {
    hide Slot;
    TwoCells();
    var s0 := Initial<T>(2);
    var s1 := After(s0, Begin(0, v));
    var s2 := After(s1, ReadSequence(0));
    states := [s0, s1, s2, After(s2, Exchange(0))];
  }

  lemma SecondClaim<T>(v: T, w: T) returns (states: seq<Ring<T>>)
    ensures Path(states, Claiming(1, w)) && states[0] == OneClaim(v) && states[3] == TwoClaims(v, w)
  {
    hide Slot, HasSingleBit;
    TwoCells();
    var s0 := OneClaim(v);
    var s1 := After(s0, Begin(1, w));
    var s2 := After(s1, ReadSequence(1));
    states := [s0, s1, s2, After(s2, Exchange(1))];
  }

  lemma PublishAndLook<T>(v: T, w: T) returns (states: seq<Ring<T>>)
    ensures Path(states, [Emplace(1), Publish(1), Examine, GiveUp])
    ensures states[0] == TwoClaims(v, w) && states[2] == states[4] == Overtaken(v, w)
    ensures states[3] == Overtaken(v, w).(consumer := Examined(0))
  {
    hide Slot, HasSingleBit;
    TwoCells();
    var s0 := TwoClaims(v, w);
    var s1 := After(s0, Emplace(1));
    var s2 := After(s1, Publish(1));
    assert s2 == Overtaken(v, w);
    var s3 := After(s2, Examine);
    states := [s0, s1, s2, s3, After(s3, GiveUp)];
  }

  /**
     The run: the push of thread 1 returned true and its value is in the ring, and yet TryPop returns
     nothing, because the older position is still being written.
   */
  lemma PopMissesCompletedPush<T>(v: T, w: T) returns (r: Run<T>)
    ensures IsRun(r, 2) && r.steps == Overtaking(v, w)
    ensures r.steps[7] == Publish(1) && r.steps[9] == GiveUp
    ensures Counters(r.states[9]) && Queue(r.states[9]) == [v, w]
    ensures r.states[9].cells == [Cell(0, Empty), Cell(2, Full(w))]
    ensures r.states[10].popped == []
  {
    hide Slot, HasSingleBit, Shape, Enabled, After;
    TwoCells();
    var a := FirstClaim(v);
    var b := SecondClaim(v, w);
    var c := PublishAndLook(v, w);
    var y := [Emplace(1), Publish(1), Examine, GiveUp];
    JoinPaths(b, c, Claiming(1, w), y);
    JoinPaths(a, b + c[1..], Claiming(0, v), Claiming(1, w) + y);
    r := Run(a + (b + c[1..])[1..], Overtaking(v, w));
    forall i | 0 <= i < |r.steps| ensures Follows(r, i) {
    }
    assert r.states[9] == c[3] && r.states[10] == c[4];
  }
}
