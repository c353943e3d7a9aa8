/**
 The outbox relay (cpp/src/outbox_relay.cpp). First PublishBatch itself, over a publisher that may fail;
 then any number of relays that interleave with every other transaction, time out and crash between
 publishing and marking, with sends that may still land after the relay gave up on them.
 */
module OutboxRelays {
  import opened Arithmetic
  import opened Text
  import opened DurableStores
  import opened DurableHistory

  // ---------------------------------------------------------------- one batch

  /**
     A publisher: a record may or may not reach the log, and only a record that did may be confirmed.
     `answers` records what it said to each record.
   */
  class OutboxPublisher {
    var log: seq<OutboxRow>
    ghost var answers: seq<bool>

    constructor ()
      ensures log == [] && answers == []
    {
      log, answers := [], [];
    }

    method Publish(record: OutboxRow) returns (ok: bool)
      modifies this
      ensures log == old(log) || log == old(log) + [record]
      ensures ok ==> log == old(log) + [record]
      ensures answers == old(answers) + [ok]
    {
      var appended: bool := *;
      var confirmed: bool := *;
      if appended {
        log := log + [record];
      }
      ok := appended && confirmed;
      answers := answers + [ok];
    }
  }

  /** The outbox after the first `n` rows of a batch have been marked. */
  function MarkedBatch(outbox: seq<OutboxRow>, batch: seq<OutboxRow>, n: nat): seq<OutboxRow>
    requires n <= |batch|
  {
    if n == 0 then outbox else MarkedRows(MarkedBatch(outbox, batch, n - 1), batch[n - 1].id)
  }

  /** The publisher's answers to a batch: yes to everything published, and no to the record that ended it early. */
  function Answers(published: nat, size: nat): seq<bool> {
    seq(published, _ => true) + if published < size then [false] else []
  }

  class OutboxRelay {
    const store: DurableStore
    const publisher: OutboxPublisher

    constructor (store: DurableStore, publisher: OutboxPublisher)
      ensures this.store == store && this.publisher == publisher
    {
      this.store, this.publisher := store, publisher;
    }

    /**
       Publishes in id order and marks each record once confirmed; the first failure ends the batch, and
       only the record that failed may have reached the log unmarked.
     */
    method PublishBatch(limit: nat) returns (published: nat)
      modifies store, publisher
      ensures var batch := Unpublished(old(store.outbox), limit);
        && published <= |batch|
        && store.View() == old(store.View()).(outbox := MarkedBatch(old(store.outbox), batch, published))
        && (publisher.log == old(publisher.log) + batch[..published]
            || (published < |batch| && publisher.log == old(publisher.log) + batch[..published + 1]))
        && publisher.answers == old(publisher.answers) + Answers(published, |batch|)
      ensures (forall i | |old(publisher.answers)| <= i < |publisher.answers| :: publisher.answers[i]) ==>
        published == Min(limit, UnpublishedCount(old(store.outbox)))
    {
      hide Unpublished, Ascending, UnpublishedCount, ComesFirst, MarkedRows;
      var batch := store.FetchUnpublished(limit);
      published := 0;
      for i := 0 to |batch|
        invariant published == i
        invariant store.View() == old(store.View()).(outbox := MarkedBatch(old(store.outbox), batch, i))
        invariant publisher.log == old(publisher.log) + batch[..i]
        invariant publisher.answers == old(publisher.answers) + seq(i, _ => true)
      {
        assert batch[..i + 1] == batch[..i] + [batch[i]];
        var ok := publisher.Publish(batch[i]);
        if !ok {
          break;
        }
        store.MarkPublished(batch[i].id);
        published := published + 1;
      }
      if published < |batch| {
        assert !publisher.answers[|old(publisher.answers)| + published];
      }
    }
  }

  // ---------------------------------------------------------------- many relays

  /** A record in flight or in the broker's log; `at` is the index of its outbox row. */
  datatype Entry = Entry(row: OutboxRow, at: nat)

  /** A relay inside PublishBatch, with the rows it has still to handle; `from` is the index of the first. */
  datatype Relay =
    | Ready(rest: seq<OutboxRow>, from: nat)
    | Sending(rest: seq<OutboxRow>, from: nat)
    | Confirmed(rest: seq<OutboxRow>, from: nat)

  /** `marked` counts the published rows. */
  datatype World = World(
    tables: Tables,
    log: seq<Entry>,
    inFlight: multiset<Entry>,
    relays: map<nat, Relay>,
    marked: nat)

  datatype Step =
    | Transact(op: Op)
    | Fetch(relay: nat, limit: nat)
    | Send(relay: nat)
    | Land(entry: Entry)
    | Lose(entry: Entry)
    | Confirm(relay: nat)
    | Mark(relay: nat)
    | Stop(relay: nat)

  const Start: World := World(Fresh, [], multiset{}, map[], 0)

  ghost predicate InLog(log: seq<Entry>, row: OutboxRow) {
    exists k | 0 <= k < |log| :: log[k].row == row
  }

  ghost predicate Enabled(w: World, step: Step) {
    match step
    case Transact(op) => !op.MarkPublished?
    case Fetch(r, _) => r !in w.relays
    case Send(r) => r in w.relays && w.relays[r].Ready? && w.relays[r].rest != []
    case Land(entry) => entry in w.inFlight
    case Lose(entry) => entry in w.inFlight
    case Confirm(r) => r in w.relays && w.relays[r].Sending? && w.relays[r].rest != [] && InLog(w.log, w.relays[r].rest[0])
    case Mark(r) => r in w.relays && w.relays[r].Confirmed? && w.relays[r].rest != []
    case Stop(r) => r in w.relays
  }

  ghost function Next(w: World, step: Step): World
    requires Enabled(w, step)
  {
    match step
    case Transact(op) => w.(tables := Apply(w.tables, op))
    case Fetch(r, limit) => w.(relays := w.relays[r := Ready(Unpublished(w.tables.outbox, limit), w.marked)])
    case Send(r) =>
      var relay := w.relays[r];
      w.(relays := w.relays[r := Sending(relay.rest, relay.from)],
         inFlight := w.inFlight + multiset{Entry(relay.rest[0], relay.from)})
    case Land(entry) => w.(log := w.log + [entry], inFlight := w.inFlight - multiset{entry})
    case Lose(entry) => w.(inFlight := w.inFlight - multiset{entry})
    case Confirm(r) => w.(relays := w.relays[r := Confirmed(w.relays[r].rest, w.relays[r].from)])
    case Mark(r) =>
      var relay := w.relays[r];
      w.(tables := Apply(w.tables, MarkPublished(relay.rest[0].id)),
         relays := w.relays[r := Ready(relay.rest[1..], relay.from + 1)],
         marked := if w.marked <= relay.from then relay.from + 1 else w.marked)
    case Stop(r) => w.(relays := w.relays - {r})
  }

  // ---------------------------------------------------------------- the invariant

  /** How many rows have appeared in the log, when they appear in order. */
  function Reached(log: seq<Entry>): nat {
    if log == [] then 0
    else
      var n := |log| - 1;
      var before := Reached(log[..n]);
      if before <= log[n].at then log[n].at + 1 else before
  }

  /** Every entry repeats a row that has appeared or is the next one to appear. */
  ghost predicate InOrder(log: seq<Entry>) {
    log == [] || (InOrder(log[..|log| - 1]) && log[|log| - 1].at <= Reached(log[..|log| - 1]))
  }

  function AsSent(row: OutboxRow): OutboxRow {
    row.(published := false)
  }

  /** An entry is a copy of its outbox row. */
  ghost predicate Copies(outbox: seq<OutboxRow>, e: Entry) {
    e.at < |outbox| && e.row == AsSent(outbox[e.at])
  }

  /** The rest of a batch is a run of outbox rows that starts no later than the first unpublished one. */
  ghost predicate BatchOk(outbox: seq<OutboxRow>, marked: nat, rest: seq<OutboxRow>, from: nat) {
    && from <= marked && from + |rest| <= |outbox|
    && forall i | 0 <= i < |rest| :: rest[i] == AsSent(outbox[from + i])
  }

  ghost predicate RelayOk(w: World, relay: Relay) {
    && BatchOk(w.tables.outbox, w.marked, relay.rest, relay.from)
    && (relay.Confirmed? ==> relay.rest != [] && relay.from < Reached(w.log))
  }

  ghost predicate PublishedPrefix(outbox: seq<OutboxRow>, marked: nat) {
    marked <= |outbox| && forall i | 0 <= i < |outbox| :: outbox[i].published <==> i < marked
  }

  ghost predicate LogOk(w: World) {
    && InOrder(w.log) && w.marked <= Reached(w.log)
    && (forall k | 0 <= k < |w.log| :: Copies(w.tables.outbox, w.log[k]))
    && (forall e | e in w.inFlight :: Copies(w.tables.outbox, e) && e.at <= w.marked)
  }

  ghost predicate RelaysOk(w: World) {
    forall r | r in w.relays :: RelayOk(w, w.relays[r])
  }

  ghost predicate Inv(w: World) {
    TablesOk(w.tables) && PublishedPrefix(w.tables.outbox, w.marked) && LogOk(w) && RelaysOk(w)
  }

  /** Every transaction but a mark leaves the old rows alone and adds at most one unpublished row. */
  ghost predicate Appends(a: seq<OutboxRow>, b: seq<OutboxRow>) {
    |a| <= |b| && b[..|a|] == a && forall i | |a| <= i < |b| :: !b[i].published
  }

  lemma TransactAppends(t: Tables, op: Op)
    requires !op.MarkPublished?
    ensures Appends(t.outbox, Apply(t, op).outbox)
  {
    hide Deliveries;
  }

  lemma TransactKeeps(w: World, op: Op)
    requires Inv(w) && Enabled(w, Transact(op))
    ensures Inv(Next(w, Transact(op)))
  {
    hide TablesOk, Apply, InOrder, Reached;
    var w' := Next(w, Transact(op));
    TransactAppends(w.tables, op);
    ApplyKeeps(w.tables, op);
    var a, b := w.tables.outbox, w'.tables.outbox;
    assert forall i | 0 <= i < |a| :: b[i] == a[i];
    forall r | r in w'.relays ensures RelayOk(w', w'.relays[r]) {
      assert RelayOk(w, w.relays[r]);
    }
  }

  /** FetchUnpublished returns the rows from the first unpublished one on, up to its limit. */
  lemma {:induction false} UnpublishedIsSuffix(outbox: seq<OutboxRow>, marked: nat, limit: nat)
    requires PublishedPrefix(outbox, marked)
    ensures Unpublished(outbox, limit) == outbox[marked..][..Min(limit, |outbox| - marked)]
  {
    if outbox != [] && limit > 0 {
      var rest := outbox[1..];
      if outbox[0].published {
        UnpublishedIsSuffix(rest, marked - 1, limit);
        assert rest[marked - 1..] == outbox[marked..];
      } else {
        UnpublishedIsSuffix(rest, 0, limit - 1);
        assert outbox[0..] == outbox && rest[0..] == rest;
        assert outbox[..Min(limit, |outbox|)] == [outbox[0]] + rest[..Min(limit - 1, |rest|)];
      }
    }
  }

  lemma FetchKeeps(w: World, r: nat, limit: nat)
    requires Inv(w) && Enabled(w, Fetch(r, limit))
    ensures Inv(Next(w, Fetch(r, limit)))
  {
    hide TablesOk, Unpublished, InOrder, Reached;
    UnpublishedIsSuffix(w.tables.outbox, w.marked, limit);
    assert BatchOk(w.tables.outbox, w.marked, Unpublished(w.tables.outbox, limit), w.marked);
    var w' := Next(w, Fetch(r, limit));
    forall q | q in w'.relays ensures RelayOk(w', w'.relays[q]) {
      assert q != r ==> RelayOk(w, w.relays[q]);
    }
  }

  lemma LogGrows(log: seq<Entry>, e: Entry)
    ensures Reached(log + [e]) == if Reached(log) <= e.at then e.at + 1 else Reached(log)
    ensures InOrder(log + [e]) <==> InOrder(log) && e.at <= Reached(log)
  {
    assert (log + [e])[..|log|] == log;
  }

  lemma SendKeeps(w: World, step: Step)
    requires Inv(w) && Enabled(w, step) && (step.Send? || step.Land? || step.Lose?)
    ensures Inv(Next(w, step))
  {
    hide TablesOk, InOrder, Reached;
    var w' := Next(w, step);
    if step.Land? {
      LogGrows(w.log, step.entry);
    }
    if step.Send? {
      assert RelayOk(w, w.relays[step.relay]);
    }
    forall q | q in w'.relays ensures RelayOk(w', w'.relays[q]) {
      assert RelayOk(w, w.relays[q]);
    }
  }

  lemma {:induction false} LoggedIsReached(log: seq<Entry>, k: nat)
    requires k < |log|
    ensures log[k].at < Reached(log)
  {
    if k < |log| - 1 {
      LoggedIsReached(log[..|log| - 1], k);
    }
  }

  /** Ids identify rows. */
  lemma CopyIsAt(t: Tables, i: nat, j: nat)
    requires IdsAscend(t) && i < |t.outbox| && j < |t.outbox| && t.outbox[i].id == t.outbox[j].id
    ensures i == j
  {
  }

  lemma ConfirmKeeps(w: World, r: nat)
    requires Inv(w) && Enabled(w, Confirm(r))
    ensures Inv(Next(w, Confirm(r)))
  {
    hide ResultsOk, PoisonOk, InOrder, Reached;
    var w', relay := Next(w, Confirm(r)), w.relays[r];
    assert RelayOk(w, relay) && relay.rest[0] == AsSent(w.tables.outbox[relay.from + 0]);
    var k :| 0 <= k < |w.log| && w.log[k].row == relay.rest[0];
    assert Copies(w.tables.outbox, w.log[k]);
    CopyIsAt(w.tables, w.log[k].at, relay.from);
    LoggedIsReached(w.log, k);
    forall q | q in w'.relays ensures RelayOk(w', w'.relays[q]) {
      assert RelayOk(w, w.relays[q]);
    }
  }

  /** Marking the row at `from` publishes exactly that row. */
  lemma MarkOne(t: Tables, marked: nat, from: nat)
    requires IdsAscend(t) && PublishedPrefix(t.outbox, marked) && from <= marked && from < |t.outbox|
    ensures var b := MarkedRows(t.outbox, t.outbox[from].id);
      && PublishedPrefix(b, if marked <= from then from + 1 else marked)
      && forall i | 0 <= i < |b| :: AsSent(b[i]) == AsSent(t.outbox[i])
  {
    var b := MarkedRows(t.outbox, t.outbox[from].id);
    hide MarkedRows, IdsAscend;
    forall i | 0 <= i < |b| ensures b[i] == if i == from then t.outbox[i].(published := true) else t.outbox[i] {
      if t.outbox[i].id == t.outbox[from].id {
        CopyIsAt(t, i, from);
      }
    }
  }

  /** Records and batches do not depend on the publication marks. */
  lemma SameCopies(w: World, relay: Relay, marked: nat, b: seq<OutboxRow>)
    requires RelayOk(w, relay) && w.marked <= marked
    requires |b| == |w.tables.outbox| && forall i | 0 <= i < |b| :: AsSent(b[i]) == AsSent(w.tables.outbox[i])
    ensures BatchOk(b, marked, relay.rest, relay.from)
  {
    hide AsSent;
  }

  lemma MarkStepKeeps(w: World, r: nat)
    requires Inv(w) && Enabled(w, Step.Mark(r))
    ensures Inv(Next(w, Step.Mark(r)))
  {
    hide ResultsOk, PoisonOk, RowsOk, SourcesDistinct, InOrder, Reached, BatchOk, AsSent, PublishedPrefix, MarkedRows,
         IdsAscend;
    var w', relay := Next(w, Step.Mark(r)), w.relays[r];
    MarkedRowId(w, relay);
    MarkOne(w.tables, w.marked, relay.from);
    ApplyKeeps(w.tables, MarkPublished(relay.rest[0].id));
    forall q | q in w'.relays ensures RelayOk(w', w'.relays[q]) {
      SameCopies(w, w.relays[q], w'.marked, w'.tables.outbox);
      if q == r {
        BatchTail(w'.tables.outbox, w'.marked, relay.rest, relay.from);
      }
    }
  }

  lemma MarkedRowId(w: World, relay: Relay)
    requires RelayOk(w, relay) && relay.rest != []
    ensures relay.from < |w.tables.outbox| && relay.rest[0].id == w.tables.outbox[relay.from].id && relay.from <= w.marked
  {
    assert relay.rest[0] == AsSent(w.tables.outbox[relay.from + 0]);
  }

  lemma BatchTail(outbox: seq<OutboxRow>, marked: nat, rest: seq<OutboxRow>, from: nat)
    requires BatchOk(outbox, marked, rest, from) && rest != [] && from < marked
    ensures BatchOk(outbox, marked, rest[1..], from + 1)
  {
    assert forall i | 0 <= i < |rest[1..]| :: rest[1..][i] == rest[i + 1] && from + (i + 1) == from + 1 + i;
  }

  lemma StopKeeps(w: World, r: nat)
    requires Inv(w) && Enabled(w, Stop(r))
    ensures Inv(Next(w, Stop(r)))
  {
    hide TablesOk, InOrder, Reached;
    var w' := Next(w, Stop(r));
    forall q | q in w'.relays ensures RelayOk(w', w'.relays[q]) {
      assert RelayOk(w, w.relays[q]);
    }
  }

  /** Every step of every participant keeps the invariant. */
  lemma StepKeeps(w: World, step: Step)
    requires Inv(w) && Enabled(w, step)
    ensures Inv(Next(w, step))
  {
    hide Inv, Enabled, Next;
    match step
    case Transact(op) => TransactKeeps(w, op);
    case Fetch(r, limit) => FetchKeeps(w, r, limit);
    case Send(_) => SendKeeps(w, step);
    case Land(_) => SendKeeps(w, step);
    case Lose(_) => SendKeeps(w, step);
    case Confirm(r) => ConfirmKeeps(w, r);
    case Mark(r) => MarkStepKeeps(w, r);
    case Stop(r) => StopKeeps(w, r);
  }

  lemma StartInv()
    ensures Inv(Start)
  {
    hide TablesOk;
    FreshOk();
  }

  // ---------------------------------------------------------------- whole runs

  datatype Run = Run(worlds: seq<World>, steps: seq<Step>)

  ghost predicate Follows(r: Run, i: nat)
    requires i < |r.steps| && |r.worlds| == |r.steps| + 1
  {
    Enabled(r.worlds[i], r.steps[i]) && r.worlds[i + 1] == Next(r.worlds[i], r.steps[i])
  }

  ghost predicate IsRun(r: Run) {
    && |r.worlds| == |r.steps| + 1 && r.worlds[0] == Start
    && forall i | 0 <= i < |r.steps| :: Follows(r, i)
  }

  lemma {:induction false} RunInv(r: Run, n: nat)
    requires IsRun(r) && n < |r.worlds|
    ensures Inv(r.worlds[n])
  {
    hide Inv;
    if n == 0 {
      StartInv();
    } else {
      RunInv(r, n - 1);
      assert Follows(r, n - 1);
      StepKeeps(r.worlds[n - 1], r.steps[n - 1]);
    }
  }

  /** Outbox ids ascend, and the published rows are a prefix in id order. */
  lemma PublishedIsPrefix(r: Run, n: nat, i: nat, j: nat)
    requires IsRun(r) && n < |r.worlds| && i < j < |r.worlds[n].tables.outbox|
    ensures var outbox := r.worlds[n].tables.outbox;
      outbox[i].id < outbox[j].id && (outbox[j].published ==> outbox[i].published)
  {
    hide LogOk, RelaysOk, ResultsOk, PoisonOk;
    RunInv(r, n);
  }

  lemma {:induction false} AppearsBelow(log: seq<Entry>, i: nat) returns (m: nat)
    requires InOrder(log) && i < Reached(log)
    ensures m < |log| && log[m].at == i
  {
    var n := |log| - 1;
    if i < Reached(log[..n]) {
      m := AppearsBelow(log[..n], i);
    } else {
      m := n;
    }
  }

  lemma {:induction false} PrefixInOrder(log: seq<Entry>, k: nat)
    requires InOrder(log) && k < |log|
    ensures InOrder(log[..k]) && log[k].at <= Reached(log[..k])
  {
    if k < |log| - 1 {
      PrefixInOrder(log[..|log| - 1], k);
      assert log[..|log| - 1][..k] == log[..k];
    }
  }

  /** First appearances in the broker's log follow id order: before any record, every record of a smaller id. */
  lemma FirstAppearancesInIdOrder(r: Run, n: nat, k: nat, i: nat) returns (m: nat)
    requires IsRun(r) && n < |r.worlds| && k < |r.worlds[n].log| && i < |r.worlds[n].tables.outbox|
    requires r.worlds[n].tables.outbox[i].id < r.worlds[n].log[k].row.id
    ensures m < k && r.worlds[n].log[m].row == AsSent(r.worlds[n].tables.outbox[i])
  {
    hide RelaysOk, ResultsOk, PoisonOk, InOrder, Reached;
    RunInv(r, n);
    var w := r.worlds[n];
    assert Copies(w.tables.outbox, w.log[k]);
    assert i < w.log[k].at;
    PrefixInOrder(w.log, k);
    m := AppearsBelow(w.log[..k], i);
    assert Copies(w.tables.outbox, w.log[m]);
  }

  lemma PublishedWasLogged(w: World, i: nat) returns (m: nat)
    requires Inv(w) && i < |w.tables.outbox| && w.tables.outbox[i].published
    ensures m < |w.log| && w.log[m].row == AsSent(w.tables.outbox[i])
  {
    hide RelaysOk, TablesOk, InOrder, Reached;
    m := AppearsBelow(w.log, i);
    assert Copies(w.tables.outbox, w.log[m]);
  }

  /** A row is marked published only after the broker has its record. */
  lemma PublishedIsAtBroker(r: Run, n: nat, i: nat) returns (m: nat)
    requires IsRun(r) && n < |r.worlds| && i < |r.worlds[n].tables.outbox| && r.worlds[n].tables.outbox[i].published
    ensures m < |r.worlds[n].log| && r.worlds[n].log[m].row == AsSent(r.worlds[n].tables.outbox[i])
  {
    hide Inv;
    RunInv(r, n);
    m := PublishedWasLogged(r.worlds[n], i);
  }

  lemma {:induction false} RowIsDelivered(outbox: seq<OutboxRow>, i: nat)
    requires i < |outbox|
    ensures Delivery(outbox[i].payload, outbox[i].source) in Deliveries(outbox, outbox[i].topic, outbox[i].messageKey)
  {
    if i < |outbox| - 1 {
      RowIsDelivered(outbox[..|outbox| - 1], i);
    }
  }

  /** Every result at the broker is the accepted result of its request, with the request's source position. */
  lemma BrokerResultsAreAccepted(r: Run, n: nat, k: nat)
    requires IsRun(r) && n < |r.worlds| && k < |r.worlds[n].log| && r.worlds[n].log[k].row.topic == RESULTS
    ensures var t, row := r.worlds[n].tables, r.worlds[n].log[k].row;
      && row.messageKey in t.requests && t.requests[row.messageKey].terminalResult == Some(row.payload)
      && t.requests[row.messageKey].source == row.source
  {
    hide RelaysOk, PoisonOk, RowsOk, InOrder, Reached, Deliveries;
    RunInv(r, n);
    var w := r.worlds[n];
    assert Copies(w.tables.outbox, w.log[k]);
    RowIsDelivered(w.tables.outbox, w.log[k].at);
    var id := w.log[k].row.messageKey;
    assert Deliveries(w.tables.outbox, RESULTS, id) == Expected(w.tables, id);
  }

  // ---------------------------------------------------------------- the history behind a run

  /** The transaction that a step commits, if any. */
  ghost function Committed(w: World, step: Step): seq<Op>
    requires Enabled(w, step)
  {
    match step
    case Transact(op) => [op]
    case Mark(r) => [MarkPublished(w.relays[r].rest[0].id)]
    case _ => []
  }

  lemma CommittedIs(w: World, step: Step)
    requires Enabled(w, step)
    ensures |Committed(w, step)| <= 1
    ensures Next(w, step).tables == After(w.tables, Committed(w, step))
  {
    hide Apply;
    if Committed(w, step) != [] {
      var op := Committed(w, step)[0];
      assert Committed(w, step)[..0] == [];
      assert After(w.tables, [op]) == Apply(After(w.tables, []), op);
    }
  }

  lemma {:induction false} AfterJoins(t: Tables, a: seq<Op>, b: seq<Op>)
    ensures After(t, a + b) == After(After(t, a), b)
  {
    hide Apply;
    if b == [] {
      assert a + b == a;
    } else {
      var n := |b| - 1;
      AfterJoins(t, a, b[..n]);
      assert (a + b)[..|a + b| - 1] == a + b[..n];
    }
  }

  /** The transactions committed in the first `n` steps of a run. */
  ghost function History(r: Run, n: nat): seq<Op>
    requires IsRun(r) && n < |r.worlds|
  {
    if n == 0 then []
    else
      assert Follows(r, n - 1);
      History(r, n - 1) + Committed(r.worlds[n - 1], r.steps[n - 1])
  }

  /** The tables of a run are those of a history, so everything said about histories holds in runs. */
  lemma {:induction false} TablesAreHistory(r: Run, i: nat, n: nat)
    requires IsRun(r) && i <= n < |r.worlds|
    ensures |History(r, i)| <= |History(r, n)|
    ensures r.worlds[i].tables == At(History(r, n), |History(r, i)|)
  {
    hide Enabled, Next, Committed, After;
    HistoryIs(r, i);
    HistoryGrows(r, i, n);
    assert History(r, n)[..|History(r, i)|] == History(r, i);
  }

  lemma {:induction false} HistoryGrows(r: Run, i: nat, n: nat)
    requires IsRun(r) && i <= n < |r.worlds|
    ensures History(r, i) <= History(r, n)
  {
    hide Committed;
    if i < n {
      HistoryGrows(r, i, n - 1);
    }
  }

  lemma {:induction false} HistoryIs(r: Run, n: nat)
    requires IsRun(r) && n < |r.worlds|
    ensures r.worlds[n].tables == After(Fresh, History(r, n))
  {
    hide Committed, Next, Enabled;
    if n > 0 {
      HistoryIs(r, n - 1);
      assert Follows(r, n - 1);
      CommittedIs(r.worlds[n - 1], r.steps[n - 1]);
      AfterJoins(Fresh, History(r, n - 1), Committed(r.worlds[n - 1], r.steps[n - 1]));
    }
  }
}
