/**
 Routers, relays and engines over the shared tables and the broker (cpp/src/durable_router_main.cpp,
 cpp/src/kafka_poller.cpp). A router's main loop marks a source position complete only after
 IsSourcePublished said yes; partitions may be revoked, reassigned and redelivered at any moment, and
 every other transaction and relay step interleaves freely. The source topic grows at its end and may
 lose any of its messages to retention or compaction.
 */
module Routers {
  import opened DurableStores
  import opened DurableHistory
  import opened OutboxRelays
  import opened OffsetTracking
  import opened KafkaPollers

  /** Where a router's main loop is in the handling of one message. */
  datatype Main = Looping | Handling(source: Source) | Cleared(source: Source)

  /** `positions` holds the offset from which the consumer fetches next, per partition. */
  datatype Router = Router(poller: Poller, positions: map<int, int>, main: Main)

  /** What a consumer does without a position to resume from. */
  datatype Reset = Earliest | Latest

  /**
     `committed` is the consumer group's position per partition, `topic` the source positions that hold a
     message, `ends` the end of each partition. `skipped` records the end from which a consumer was started
     for want of a position, under `Latest`.
   */
  datatype System = System(
    world: World,
    routers: map<nat, Router>,
    committed: map<int, int>,
    topic: set<Source>,
    ends: map<int, int>,
    skipped: map<int, int>,
    reset: Reset)

  datatype Move =
    | Shared(step: Step)
    | Produce(source: Source)
    | Retire(sources: set<Source>)
    | Join(router: nat)
    | Crash(router: nat)
    | Assign(router: nat, partitions: seq<int>)
    | Revoke(router: nat, partitions: seq<int>)
    | Restart(router: nat, partition: int)
    | Deliver(router: nat, message: Message)
    | Pop(router: nat)
    | Abandon(router: nat)
    | Check(router: nat)
    | Complete(router: nat)
    | CommitNext(router: nat, accepted: bool)

  function Boot(reset: Reset): System {
    System(OutboxRelays.Start, map[], map[], {}, map[], map[], reset)
  }

  function At0(m: map<int, int>, partition: int): int {
    if partition in m then m[partition] else 0
  }

  /** Where a consumer resumes: after the last commit, or where the reset policy says. */
  function ResumeAt(s: System, partition: int): int {
    if partition in s.committed then s.committed[partition]
    else if s.reset.Latest? then At0(s.ends, partition) else 0
  }

  /** The first message at or after a position. */
  ghost predicate IsNext(topic: set<Source>, position: int, source: Source) {
    && source in topic && source.offset >= position
    && forall o | position <= o < source.offset :: Source(source.partition, o) !in topic
  }

  ghost predicate CanMove(s: System, move: Move) {
    match move
    case Shared(step) => OutboxRelays.Enabled(s.world, step)
    case Produce(source) => source.offset >= At0(s.ends, source.partition)
    case Retire(_) => true
    case Join(r) => r !in s.routers
    case Restart(r, p) => r in s.routers && p in s.routers[r].positions && s.reset.Latest?
    case Deliver(r, m) =>
      r in s.routers && m.source.partition in s.routers[r].positions
      && IsNext(s.topic, s.routers[r].positions[m.source.partition], m.source)
    case Pop(r) => r in s.routers && s.routers[r].main.Looping? && s.routers[r].poller.messages != []
    case Abandon(r) => r in s.routers && s.routers[r].main.Handling?
    case Check(r) => r in s.routers && s.routers[r].main.Handling?
    case Complete(r) => r in s.routers && s.routers[r].main.Cleared?
    case CommitNext(r, _) => r in s.routers && s.routers[r].poller.commits != []
    case _ => move.router in s.routers
  }

  ghost function Resumed(s: System, positions: map<int, int>, partitions: seq<int>): map<int, int> {
    map p | p in positions.Keys + Ids(partitions) :: if p in partitions then ResumeAt(s, p) else positions[p]
  }

  /** Moves of one router that keep its process alive. */
  predicate OfRouter(move: Move) {
    !move.Shared? && !move.Produce? && !move.Retire? && !move.Crash?
  }

  /** What a router's own move makes of it. */
  ghost function MovedRouter(s: System, move: Move): Router
    requires OfRouter(move) && CanMove(s, move)
  {
    if move.Join? then Router(Idle, map[], Looping) else
    var r := s.routers[move.router];
    match move
    case Assign(_, partitions) =>
      r.(poller := OnAssign(r.poller, partitions), positions := Resumed(s, r.positions, partitions))
    case Revoke(_, partitions) =>
      r.(poller := OnRevoke(r.poller, partitions), positions := r.positions - Ids(partitions))
    case Restart(_, p) => r.(positions := r.positions[p := At0(s.ends, p)])
    case Deliver(_, m) =>
      r.(poller := OnDeliver(r.poller, m), positions := r.positions[m.source.partition := m.source.offset + 1])
    case Pop(_) =>
      var source := r.poller.messages[0].source;
      r.(poller := r.poller.(messages := r.poller.messages[1..]),
         main := if source.partition in r.poller.owned then Handling(source) else Looping)
    case Abandon(_) => r.(main := Looping)
    case Check(_) => r.(main := if SourcePublished(s.world.tables, r.main.source) then Cleared(r.main.source) else Looping)
    case Complete(_) => r.(poller := OnComplete(r.poller, r.main.source), main := Looping)
    case CommitNext(_, _) => r.(poller := r.poller.(commits := r.poller.commits[1..]))
    case _ => r
  }

  ghost function CommittedAfter(s: System, move: Move): map<int, int>
    requires CanMove(s, move)
  {
    if move.CommitNext? && move.accepted then
      var c := s.routers[move.router].poller.commits[0];
      s.committed[c.partition := c.offset + 1]
    else s.committed
  }

  /** Under `Latest`, a consumer that starts without a position passes over what the partition holds. */
  ghost function SkippedAfter(s: System, move: Move): map<int, int> {
    match move
    case Assign(_, partitions) =>
      if s.reset.Latest?
      then s.skipped + map p | p in Ids(partitions) && p !in s.committed :: At0(s.ends, p)
      else s.skipped
    case Restart(_, p) => s.skipped[p := At0(s.ends, p)]
    case _ => s.skipped
  }

  ghost function Moved(s: System, move: Move): System
    requires CanMove(s, move)
  {
    match move
    case Shared(step) => s.(world := OutboxRelays.Next(s.world, step))
    case Produce(source) =>
      s.(topic := s.topic + {source}, ends := s.ends[source.partition := source.offset + 1])
    case Retire(sources) => s.(topic := s.topic - sources)
    case Crash(r) => s.(routers := s.routers - {r})
    case _ =>
      s.(routers := s.routers[move.router := MovedRouter(s, move)], committed := CommittedAfter(s, move),
         skipped := SkippedAfter(s, move))
  }

  // ---------------------------------------------------------------- what offsets are judged against

  /** Source positions with at least one published outbox row. */
  ghost function Acked(t: Tables): set<Source> {
    set i | 0 <= i < |t.outbox| && t.outbox[i].published :: t.outbox[i].source
  }

  /** Published positions, the topic with its ends, and what was skipped. */
  datatype Ground = Ground(acked: set<Source>, topic: set<Source>, ends: map<int, int>, skipped: map<int, int>)

  ghost function GroundOf(s: System): Ground {
    Ground(Acked(s.world.tables), s.topic, s.ends, s.skipped)
  }

  ghost predicate Covers(acked: set<Source>, partition: int, above: int, upTo: int) {
    forall o | above < o <= upTo :: Source(partition, o) in acked
  }

  /** Every message of the topic below `limit` that was not skipped has a published outbox row. */
  ghost predicate Answers(g: Ground, partition: int, limit: int) {
    && limit <= At0(g.ends, partition)
    && forall o | At0(g.skipped, partition) <= o < limit && Source(partition, o) in g.topic ::
         Source(partition, o) in g.acked
  }

  ghost predicate WithinEnd(g: Ground, source: Source) {
    source.offset < At0(g.ends, source.partition)
  }

  ghost predicate TopicOk(g: Ground) {
    forall source | source in g.topic :: WithinEnd(g, source)
  }

  /** Between two moments publications and ends grow, more may be skipped, and messages appear at the end only. */
  ghost predicate Later(g: Ground, h: Ground) {
    && g.acked <= h.acked
    && (forall p :: At0(g.ends, p) <= At0(h.ends, p))
    && (forall p :: At0(g.skipped, p) <= At0(h.skipped, p))
    && (forall source | source in h.topic && source !in g.topic :: !WithinEnd(g, source))
  }

  lemma AnswersLater(g: Ground, h: Ground, partition: int, limit: int)
    requires Later(g, h) && Answers(g, partition, limit)
    ensures Answers(h, partition, limit)
  {
    forall o | At0(h.skipped, partition) <= o < limit && Source(partition, o) in h.topic
      ensures Source(partition, o) in h.acked
    {
      assert At0(g.skipped, partition) <= At0(h.skipped, partition);
      assert WithinEnd(g, Source(partition, o));
    }
  }

  // ---------------------------------------------------------------- the invariant

  ghost predicate TrackOk(g: Ground, partition: int, t: Tracker) {
    && TrackerOk(t) && Answers(g, partition, t.base + 1)
    && forall o | o in t.marks :: Source(partition, o) in g.acked && WithinEnd(g, Source(partition, o))
  }

  ghost predicate CommitOk(g: Ground, c: Commit) {
    && Covers(g.acked, c.partition, c.base, c.offset)
    && Answers(g, c.partition, c.base + 1) && WithinEnd(g, Source(c.partition, c.offset))
  }

  ghost predicate TrackersOk(g: Ground, trackers: map<int, Tracker>) {
    forall p | p in trackers :: TrackOk(g, p, trackers[p])
  }

  ghost predicate CommitsOk(g: Ground, commits: seq<Commit>) {
    forall i | 0 <= i < |commits| :: CommitOk(g, commits[i])
  }

  ghost predicate MessagesOk(g: Ground, messages: seq<Message>) {
    forall i | 0 <= i < |messages| :: WithinEnd(g, messages[i].source)
  }

  ghost predicate PositionsOk(g: Ground, r: Router) {
    forall p | p in r.positions ::
      r.positions[p] <= At0(g.ends, p) && (p !in r.poller.trackers ==> Answers(g, p, r.positions[p]))
  }

  ghost predicate RouterOk(g: Ground, r: Router) {
    && TrackersOk(g, r.poller.trackers) && CommitsOk(g, r.poller.commits)
    && MessagesOk(g, r.poller.messages) && PositionsOk(g, r)
    && (!r.main.Looping? ==> WithinEnd(g, r.main.source))
    && (r.main.Cleared? ==> r.main.source in g.acked)
  }

  ghost predicate CommittedOk(g: Ground, committed: map<int, int>) {
    forall p | p in committed :: Answers(g, p, committed[p])
  }

  ghost predicate SystemOk(s: System) {
    && OutboxRelays.Inv(s.world) && TopicOk(GroundOf(s)) && CommittedOk(GroundOf(s), s.committed)
    && (forall r | r in s.routers :: RouterOk(GroundOf(s), s.routers[r]))
    && (forall p :: At0(s.skipped, p) <= At0(s.ends, p)) && (s.reset.Earliest? ==> s.skipped == map[])
  }

  lemma TrackLater(g: Ground, h: Ground, partition: int, t: Tracker)
    requires Later(g, h) && TrackOk(g, partition, t)
    ensures TrackOk(h, partition, t)
  {
    AnswersLater(g, h, partition, t.base + 1);
    assert At0(g.ends, partition) <= At0(h.ends, partition);
  }

  lemma CommitLater(g: Ground, h: Ground, c: Commit)
    requires Later(g, h) && CommitOk(g, c)
    ensures CommitOk(h, c)
  {
    AnswersLater(g, h, c.partition, c.base + 1);
    assert At0(g.ends, c.partition) <= At0(h.ends, c.partition);
  }

  lemma PositionsLater(g: Ground, h: Ground, r: Router)
    requires Later(g, h) && PositionsOk(g, r)
    ensures PositionsOk(h, r)
  {
    hide Answers;
    forall p | p in r.positions
      ensures r.positions[p] <= At0(h.ends, p) && (p !in r.poller.trackers ==> Answers(h, p, r.positions[p]))
    {
      assert At0(g.ends, p) <= At0(h.ends, p);
      if p !in r.poller.trackers {
        AnswersLater(g, h, p, r.positions[p]);
      }
    }
  }

  lemma WithinLater(g: Ground, h: Ground, source: Source)
    requires Later(g, h) && WithinEnd(g, source)
    ensures WithinEnd(h, source)
  {
    assert At0(g.ends, source.partition) <= At0(h.ends, source.partition);
  }

  /** What others do leaves a router in order. */
  lemma RouterLater(g: Ground, h: Ground, r: Router)
    requires Later(g, h) && RouterOk(g, r)
    ensures RouterOk(h, r)
  {
    hide TrackOk, CommitOk, PositionsOk, WithinEnd;
    forall p | p in r.poller.trackers ensures TrackOk(h, p, r.poller.trackers[p]) {
      TrackLater(g, h, p, r.poller.trackers[p]);
    }
    forall i | 0 <= i < |r.poller.commits| ensures CommitOk(h, r.poller.commits[i]) {
      CommitLater(g, h, r.poller.commits[i]);
    }
    forall i | 0 <= i < |r.poller.messages| ensures WithinEnd(h, r.poller.messages[i].source) {
      WithinLater(g, h, r.poller.messages[i].source);
    }
    PositionsLater(g, h, r);
    if !r.main.Looping? {
      WithinLater(g, h, r.main.source);
    }
  }

  // ---------------------------------------------------------------- moves of everybody else

  /** Nothing is ever unpublished. */
  lemma AckedGrows(t: Tables, op: Op)
    ensures Acked(t) <= Acked(Apply(t, op))
  {
    hide Deliveries;
    var a, b := t.outbox, Apply(t, op).outbox;
    if !op.MarkPublished? {
      TransactAppends(t, op);
    }
    assert forall i | 0 <= i < |a| && a[i].published :: b[i].published && b[i].source == a[i].source;
  }

  lemma StepLater(w: World, step: Step)
    requires OutboxRelays.Enabled(w, step)
    ensures Acked(w.tables) <= Acked(OutboxRelays.Next(w, step).tables)
  {
    hide Acked, Apply;
    if step.Transact? {
      AckedGrows(w.tables, step.op);
    } else if step.Mark? {
      AckedGrows(w.tables, MarkPublished(w.relays[step.relay].rest[0].id));
    }
  }

  /** Every move leaves a later ground. */
  lemma MoveIsLater(s: System, move: Move)
    requires SystemOk(s) && CanMove(s, move)
    ensures Later(GroundOf(s), GroundOf(Moved(s, move)))
  {
    hide OutboxRelays.Inv, Acked, RouterOk, CommittedOk, MovedRouter, CommittedAfter, OutboxRelays.Enabled,
         OutboxRelays.Next, IsNext;
    if move.Shared? {
      StepLater(s.world, move.step);
    }
  }

  lemma CommittedLater(g: Ground, h: Ground, committed: map<int, int>)
    requires Later(g, h) && CommittedOk(g, committed)
    ensures CommittedOk(h, committed)
  {
    hide Answers;
    forall p | p in committed ensures Answers(h, p, committed[p]) {
      AnswersLater(g, h, p, committed[p]);
    }
  }

  lemma TopicKeeps(s: System, move: Move)
    requires SystemOk(s) && CanMove(s, move)
    ensures TopicOk(GroundOf(Moved(s, move)))
    ensures forall p :: At0(Moved(s, move).skipped, p) <= At0(Moved(s, move).ends, p)
    ensures s.reset.Earliest? ==> Moved(s, move).skipped == map[]
    ensures Moved(s, move).reset == s.reset
  {
    hide OutboxRelays.Inv, Acked, RouterOk, CommittedOk, MovedRouter, CommittedAfter, OutboxRelays.Enabled,
         OutboxRelays.Next, IsNext;
    forall source | source in s.topic ensures WithinEnd(GroundOf(Moved(s, move)), source) {
      assert WithinEnd(GroundOf(s), source);
    }
  }

  // ---------------------------------------------------------------- moves of one router

  /** The first message after an answered position starts a tracker with an answered base. */
  lemma DeliverKeeps(g: Ground, r: Router, m: Message)
    requires TopicOk(g) && RouterOk(g, r) && m.source.partition in r.positions
    requires IsNext(g.topic, r.positions[m.source.partition], m.source)
    ensures RouterOk(g, r.(poller := OnDeliver(r.poller, m),
                           positions := r.positions[m.source.partition := m.source.offset + 1]))
  {
    var p := m.source.partition;
    assert WithinEnd(g, m.source);
    if p !in r.poller.trackers {
      assert Answers(g, p, r.positions[p]);
      BaseIsAnswered(g, r.positions[p], m.source);
    }
  }

  lemma BaseIsAnswered(g: Ground, position: int, source: Source)
    requires Answers(g, source.partition, position) && IsNext(g.topic, position, source) && WithinEnd(g, source)
    ensures TrackOk(g, source.partition, NewTracker(source.offset - 1))
  {
  }

  lemma TrackCompletes(g: Ground, source: Source, t: Tracker)
    requires TrackOk(g, source.partition, t) && source in g.acked && WithinEnd(g, source)
    ensures TrackOk(g, source.partition, Completed(t, source.offset))
    ensures Completed(t, source.offset).base == t.base
  {
    hide Completed, Answers, WithinEnd;
    CompletedKeeps(t, source.offset);
    CompletedRecords(t, source.offset);
    assert Source(source.partition, source.offset) == source;
  }

  lemma TrackCommits(g: Ground, partition: int, t: Tracker)
    requires TrackOk(g, partition, t) && t.base < t.committed
    ensures CommitOk(g, Commit(partition, t.committed, t.base))
  {
    hide Answers;
    assert t.committed in t.marks;
  }

  lemma CompleteKeeps(g: Ground, r: Router, source: Source)
    requires RouterOk(g, r) && source in g.acked && WithinEnd(g, source)
    ensures RouterOk(g, r.(poller := OnComplete(r.poller, source), main := Looping))
  {
    hide Completed, TrackOk, CommitOk, Answers, WithinEnd, At0;
    if source.partition in r.poller.trackers {
      var t := r.poller.trackers[source.partition];
      var t' := Completed(t, source.offset);
      TrackCompletes(g, source, t);
      if t'.committed > t.committed {
        TrackBase(g, source.partition, t);
        TrackCommits(g, source.partition, t');
      }
    }
  }

  lemma TrackBase(g: Ground, partition: int, t: Tracker)
    requires TrackOk(g, partition, t)
    ensures t.base <= t.committed
  {
  }

  lemma AssignKeeps(s: System, r: Router, partitions: seq<int>, h: Ground)
    requires RouterOk(h, r) && CommittedOk(h, s.committed)
    requires h.ends == s.ends && forall p | p in partitions && p !in s.committed :: Answers(h, p, ResumeAt(s, p))
    ensures RouterOk(h, r.(poller := OnAssign(r.poller, partitions), positions := Resumed(s, r.positions, partitions)))
  {
    hide TrackOk, CommitOk;
    forall p | p in partitions ensures Answers(h, p, ResumeAt(s, p)) {
      assert p in s.committed ==> Answers(h, p, s.committed[p]);
    }
  }

  /** Without a committed position a consumer starts where nothing is owed. */
  lemma FreshStart(s: System, move: Move, p: int)
    requires SystemOk(s) && move.Assign? && CanMove(s, move) && p in move.partitions && p !in s.committed
    ensures Answers(GroundOf(Moved(s, move)), p, ResumeAt(s, p))
  {
    hide OutboxRelays.Inv, Acked, RouterOk, CommittedOk, TopicOk, MovedRouter;
    var h := GroundOf(Moved(s, move));
    assert At0(s.skipped, p) <= At0(s.ends, p);
    if s.reset.Latest? {
      assert h.skipped[p] == At0(s.ends, p);
    } else {
      assert At0(h.skipped, p) == 0;
      EndsArePositive(s, p);
    }
  }

  lemma EndsArePositive(s: System, p: int)
    requires SystemOk(s) && s.reset.Earliest?
    ensures At0(s.ends, p) >= 0
  {
    assert At0(s.skipped, p) <= At0(s.ends, p);
  }

  /** A check that says yes has seen a published row. */
  lemma CheckSaw(t: Tables, source: Source)
    requires SourcePublished(t, source)
    ensures source in Acked(t)
  {
  }

  lemma RevokeKeeps(g: Ground, r: Router, partitions: seq<int>)
    requires RouterOk(g, r)
    ensures RouterOk(g, r.(poller := OnRevoke(r.poller, partitions), positions := r.positions - Ids(partitions)))
  {
    hide TrackOk, CommitOk, Answers, WithinEnd;
    var left := Outside(r.poller.messages, Ids(partitions));
    OutsideMembers(r.poller.messages, Ids(partitions));
    forall i | 0 <= i < |left| ensures WithinEnd(g, left[i].source) {
      assert left[i] in r.poller.messages;
    }
  }

  lemma RouterKeeps(s: System, move: Move)
    requires SystemOk(s) && CanMove(s, move) && OfRouter(move)
    ensures RouterOk(GroundOf(Moved(s, move)), MovedRouter(s, move))
  {
    hide OutboxRelays.Inv, Acked, OnAssign, OnDeliver, OnComplete, OnRevoke, Resumed, SourcePublished, Later, WithinEnd,
         Answers, IsNext, SkippedAfter, CommittedAfter, ResumeAt, TrackersOk, CommitsOk, MessagesOk;
    var g, h := GroundOf(s), GroundOf(Moved(s, move));
    MoveIsLater(s, move);
    if move.Join? {
      NewRouterOk(h);
    } else {
      var r := s.routers[move.router];
      RouterLater(g, h, r);
      match move
      case Assign(_, partitions) =>
        CommittedLater(g, h, s.committed);
        forall p | p in partitions && p !in s.committed ensures Answers(h, p, ResumeAt(s, p)) {
          FreshStart(s, move, p);
        }
        AssignKeeps(s, r, partitions, h);
      case Revoke(_, partitions) => RevokeKeeps(h, r, partitions);
      case Restart(_, p) => RestartIsAnswered(s, move);
      case Deliver(_, m) =>
        TopicKeeps(s, move);
        DeliverKeeps(h, r, m);
      case Complete(_) => CompleteKeeps(h, r, r.main.source);
      case Check(_) => CheckKeeps(h, r, s.world.tables);
      case _ => LittleKeeps(h, r);
    }
  }

  lemma NewRouterOk(g: Ground)
    ensures RouterOk(g, Router(Idle, map[], Looping))
  {
  }

  lemma CheckKeeps(g: Ground, r: Router, t: Tables)
    requires RouterOk(g, r) && r.main.Handling? && g.acked == Acked(t)
    ensures RouterOk(g, r.(main := if SourcePublished(t, r.main.source) then Cleared(r.main.source) else Looping))
  {
    hide Acked, SourcePublished, TrackersOk, CommitsOk, MessagesOk, Answers, WithinEnd;
    if SourcePublished(t, r.main.source) {
      CheckSaw(t, r.main.source);
    }
  }

  /** Popping a message or a commit and giving up on a message. */
  lemma LittleKeeps(g: Ground, r: Router)
    requires RouterOk(g, r)
    ensures RouterOk(g, r.(main := Looping))
    ensures r.poller.commits != [] ==> RouterOk(g, r.(poller := r.poller.(commits := r.poller.commits[1..])))
    ensures r.poller.messages != [] ==>
      var rest := r.(poller := r.poller.(messages := r.poller.messages[1..]));
      RouterOk(g, rest.(main := Handling(r.poller.messages[0].source))) && RouterOk(g, rest.(main := Looping))
  {
    hide TrackOk, CommitOk, WithinEnd, Answers;
  }

  lemma RestartIsAnswered(s: System, move: Move)
    requires move.Restart? && CanMove(s, move)
    ensures Answers(GroundOf(Moved(s, move)), move.partition, At0(s.ends, move.partition))
  {
    hide Acked, MovedRouter;
  }

  lemma CommitKeeps(s: System, r: nat)
    requires SystemOk(s) && CanMove(s, CommitNext(r, true))
    ensures CommittedOk(GroundOf(s), CommittedAfter(s, CommitNext(r, true)))
  {
    hide OutboxRelays.Inv, Acked, TrackersOk, TopicOk, PositionsOk, MessagesOk;
    var g := GroundOf(s);
    assert RouterOk(g, s.routers[r]);
    var c := s.routers[r].poller.commits[0];
    assert CommitOk(g, c);
    CommitAnswers(g, c);
  }

  lemma CommitAnswers(g: Ground, c: Commit)
    requires CommitOk(g, c)
    ensures Answers(g, c.partition, c.offset + 1)
  {
    forall o | At0(g.skipped, c.partition) <= o < c.offset + 1 && Source(c.partition, o) in g.topic
      ensures Source(c.partition, o) in g.acked
    {
      assert o <= c.base || c.base < o <= c.offset;
    }
  }

  lemma CommittedKeeps(s: System, move: Move)
    requires SystemOk(s) && CanMove(s, move)
    ensures CommittedOk(GroundOf(Moved(s, move)), Moved(s, move).committed)
  {
    hide OutboxRelays.Inv, Acked, RouterOk, TopicOk, CommittedOk, Later, MovedRouter, SkippedAfter, OutboxRelays.Enabled,
         OutboxRelays.Next, IsNext;
    MoveIsLater(s, move);
    CommittedLater(GroundOf(s), GroundOf(Moved(s, move)), s.committed);
    if move.CommitNext? && move.accepted {
      CommitKeeps(s, move.router);
      CommittedLater(GroundOf(s), GroundOf(Moved(s, move)), CommittedAfter(s, move));
    }
  }

  /** Every move keeps the invariant. */
  lemma MoveKeeps(s: System, move: Move)
    requires SystemOk(s) && CanMove(s, move)
    ensures SystemOk(Moved(s, move))
  {
    hide OutboxRelays.Inv, Acked, MovedRouter, RouterOk, CommittedOk, TopicOk, Later, CommittedAfter, SkippedAfter,
         OutboxRelays.Enabled, OutboxRelays.Next, IsNext, At0;
    var s' := Moved(s, move);
    MoveIsLater(s, move);
    TopicKeeps(s, move);
    CommittedKeeps(s, move);
    if move.Shared? {
      OutboxRelays.StepKeeps(s.world, move.step);
    }
    forall r | r in s'.routers ensures RouterOk(GroundOf(s'), s'.routers[r]) {
      if OfRouter(move) && r == move.router {
        RouterKeeps(s, move);
      } else {
        RouterLater(GroundOf(s), GroundOf(s'), s.routers[r]);
      }
    }
  }

  // ---------------------------------------------------------------- whole runs

  datatype Run = Run(systems: seq<System>, moves: seq<Move>)

  ghost predicate Follows(r: Run, i: nat)
    requires i < |r.moves| && |r.systems| == |r.moves| + 1
  {
    CanMove(r.systems[i], r.moves[i]) && r.systems[i + 1] == Moved(r.systems[i], r.moves[i])
  }

  ghost predicate IsRun(r: Run) {
    && |r.systems| == |r.moves| + 1 && r.systems[0] == Boot(r.systems[0].reset)
    && forall i | 0 <= i < |r.moves| :: Follows(r, i)
  }

  lemma {:induction false} RunOk(r: Run, n: nat)
    requires IsRun(r) && n < |r.systems|
    ensures SystemOk(r.systems[n]) && r.systems[n].reset == r.systems[0].reset
  {
    hide SystemOk, OutboxRelays.Next;
    if n == 0 {
      BootOk(r.systems[0].reset);
    } else {
      RunOk(r, n - 1);
      assert Follows(r, n - 1);
      MoveKeeps(r.systems[n - 1], r.moves[n - 1]);
      TopicKeeps(r.systems[n - 1], r.moves[n - 1]);
    }
  }

  lemma BootOk(reset: Reset)
    ensures SystemOk(Boot(reset))
  {
    hide OutboxRelays.Inv, Acked;
    OutboxRelays.StartInv();
  }

  /** The transaction that a move commits, if any. */
  ghost function CommittedBy(s: System, move: Move): seq<Op>
    requires CanMove(s, move)
  {
    if move.Shared? then OutboxRelays.Committed(s.world, move.step) else []
  }

  /** The transactions committed in the first `n` moves of a run. */
  ghost function History(r: Run, n: nat): seq<Op>
    requires IsRun(r) && n < |r.systems|
  {
    if n == 0 then []
    else
      assert Follows(r, n - 1);
      History(r, n - 1) + CommittedBy(r.systems[n - 1], r.moves[n - 1])
  }

  lemma MovedTables(s: System, move: Move)
    requires CanMove(s, move)
    ensures Moved(s, move).world.tables == After(s.world.tables, CommittedBy(s, move))
  {
    hide OutboxRelays.Next, OutboxRelays.Committed, MovedRouter, IsNext;
    if move.Shared? {
      OutboxRelays.CommittedIs(s.world, move.step);
    }
  }

  lemma AfterNothing(t: Tables)
    ensures After(t, []) == t
  {
  }

  lemma {:induction false} HistoryIs(r: Run, n: nat)
    requires IsRun(r) && n < |r.systems|
    ensures r.systems[n].world.tables == After(Fresh, History(r, n))
  {
    hide CommittedBy, Moved, CanMove, After;
    if n == 0 {
      AfterNothing(Fresh);
    } else {
      HistoryIs(r, n - 1);
      assert Follows(r, n - 1);
      var s, move := r.systems[n - 1], r.moves[n - 1];
      MovedTables(s, move);
      AfterJoins(Fresh, History(r, n - 1), CommittedBy(s, move));
    }
  }

  /** The tables of a run are those of a history, so everything said about histories holds in runs. */
  lemma TablesAreHistory(r: Run, n: nat)
    requires IsRun(r) && n < |r.systems|
    ensures r.systems[n].world.tables == At(History(r, n), |History(r, n)|)
  {
    hide After, History;
    HistoryIs(r, n);
    assert History(r, n)[..|History(r, n)|] == History(r, n);
  }

  // ---------------------------------------------------------------- what a committed offset promises

  /** The source position has an outbox row that is published and whose record the broker has. */
  ghost predicate Answered(w: World, source: Source, i: nat, k: nat) {
    && i < |w.tables.outbox| && w.tables.outbox[i].source == source && w.tables.outbox[i].published
    && k < |w.log| && w.log[k].row == AsSent(w.tables.outbox[i])
  }

  lemma AckedIsAnswered(w: World, source: Source) returns (i: nat, k: nat)
    requires OutboxRelays.Inv(w) && source in Acked(w.tables)
    ensures Answered(w, source, i, k)
  {
    hide OutboxRelays.Inv;
    i :| 0 <= i < |w.tables.outbox| && w.tables.outbox[i].published && w.tables.outbox[i].source == source;
    k := PublishedWasLogged(w, i);
  }

  /**
     Whenever a router has queued an offset for commit, every source offset above its tracker's base and
     up to it has an outbox row that the broker has acknowledged.
   */
  lemma QueuedCommitsAreAnswered(r: Run, n: nat, router: nat, c: Commit, offset: int) returns (i: nat, k: nat)
    requires IsRun(r) && n < |r.systems| && router in r.systems[n].routers
    requires c in r.systems[n].routers[router].poller.commits && c.base < offset <= c.offset
    ensures Answered(r.systems[n].world, Source(c.partition, offset), i, k)
  {
    hide OutboxRelays.Inv, Acked, TrackersOk, PositionsOk, MessagesOk, Answers, Answered;
    RunOk(r, n);
    var s := r.systems[n];
    assert RouterOk(GroundOf(s), s.routers[router]);
    assert CommitOk(GroundOf(s), c);
    i, k := AckedIsAnswered(s.world, Source(c.partition, offset));
  }

  /**
     The group's committed position never passes a message of the topic that the broker has no acknowledged
     outcome for, whatever holes the topic has, except messages a consumer without a position skipped.
   */
  lemma CommittedOffsetsAreAnswered(r: Run, n: nat, source: Source) returns (i: nat, k: nat)
    requires IsRun(r) && n < |r.systems| && source in r.systems[n].topic && source.partition in r.systems[n].committed
    requires At0(r.systems[n].skipped, source.partition) <= source.offset < r.systems[n].committed[source.partition]
    ensures Answered(r.systems[n].world, source, i, k)
  {
    hide OutboxRelays.Inv, Acked, RouterOk, Answered, TopicOk;
    RunOk(r, n);
    var s := r.systems[n];
    assert Answers(GroundOf(s), source.partition, s.committed[source.partition]);
    assert Source(source.partition, source.offset) == source;
    i, k := AckedIsAnswered(s.world, source);
  }

  /** Under `Earliest` nothing is ever skipped. */
  lemma EarliestSkipsNothing(r: Run, n: nat, partition: int)
    requires IsRun(r) && n < |r.systems| && r.systems[0].reset.Earliest?
    ensures At0(r.systems[n].skipped, partition) == 0
  {
    hide OutboxRelays.Inv, RouterOk, CommittedOk, TopicOk;
    RunOk(r, n);
  }

  /**
     End to end: for every message below the committed position the broker's log holds the accepted result
     of the request ingested from it, or the dead letter with its payload in hex.
   */
  lemma CommittedOffsetsHaveOutcome(r: Run, n: nat, source: Source) returns (k: nat)
    requires IsRun(r) && n < |r.systems| && source in r.systems[n].topic && source.partition in r.systems[n].committed
    requires At0(r.systems[n].skipped, source.partition) <= source.offset < r.systems[n].committed[source.partition]
    ensures var w := r.systems[n].world;
      k < |w.log| && w.log[k].row.source == source && Explained(w.tables, w.log[k].row)
  {
    hide After, OutboxRelays.Inv, Hex, SourceKey;
    var w := r.systems[n].world;
    var i;
    i, k := CommittedOffsetsAreAnswered(r, n, source);
    TablesAreHistory(r, n);
    RowsAreExplained(History(r, n), |History(r, n)|);
    assert Explained(w.tables, w.tables.outbox[i]);
  }

  /**
     A message that only repeats a request known from another position stops the commits: while it is in
     the topic and was not skipped, the committed position does not pass it.
   */
  lemma RepeatStopsCommits(r: Run, n: nat, i: nat, id: string, source: Source)
    requires IsRun(r) && n < |r.systems| && source in r.systems[n].topic && source.partition in r.systems[n].committed
    requires At0(r.systems[n].skipped, source.partition) <= source.offset
    requires i <= |History(r, n)| && id in At(History(r, n), i).requests && At(History(r, n), i).requests[id].source != source
    requires OnlyRepeats(History(r, n), id, source)
    ensures r.systems[n].committed[source.partition] <= source.offset
  {
    hide After, IsRun, History;
    var ops := History(r, n);
    TablesAreHistory(r, n);
    assert ops[..|ops|] == ops;
    RepeatIsNeverAnswered(ops, i, |ops|, id, source);
    if source.offset < r.systems[n].committed[source.partition] {
      var j, k := CommittedOffsetsAreAnswered(r, n, source);
    }
  }
}
