/**
 What every history of the durable tables keeps, whichever routers, engines and relays run the
 transactions, in whatever order and with whatever arguments.
 */
module DurableHistory {
  import opened Text
  import opened DurableStores

  // ---------------------------------------------------------------- outbox rows

  lemma DeliveriesAppend(outbox: seq<OutboxRow>, row: OutboxRow, topic: string, key: string)
    ensures Deliveries(outbox + [row], topic, key) == Deliveries(outbox, topic, key)
      + if row.topic == topic && row.messageKey == key then [Delivery(row.payload, row.source)] else []
  {
    assert (outbox + [row])[..|outbox|] == outbox;
  }

  /** Rows that differ in the publication mark only. */
  ghost predicate SameRows(a: seq<OutboxRow>, b: seq<OutboxRow>) {
    |a| == |b| && forall i | 0 <= i < |a| :: b[i] == a[i].(published := b[i].published)
  }

  lemma {:induction false} DeliveriesSame(a: seq<OutboxRow>, b: seq<OutboxRow>, topic: string, key: string)
    requires SameRows(a, b)
    ensures Deliveries(a, topic, key) == Deliveries(b, topic, key)
  {
    if a != [] {
      var n := |a| - 1;
      DeliveriesSame(a[..n], b[..n], topic, key);
    }
  }

  ghost predicate IdsAscend(t: Tables) {
    && Ascending(t.outbox)
    && (forall i | 0 <= i < |t.outbox| :: t.outbox[i].id < t.nextOutboxId)
  }

  // ---------------------------------------------------------------- the invariant

  ghost predicate RowOk(t: Tables, row: RequestRow) {
    && (row.epoch.Some? <==> row.engineId.Some?) && (row.epoch.Some? <==> row.attempt > 0)
    && (row.epoch.Some? ==>
          row.source.partition in t.ownership && row.epoch.value <= t.ownership[row.source.partition].epoch)
    && (row.terminalResult.Some? ==> row.state == "COMPLETED")
  }

  ghost predicate RowsOk(t: Tables) {
    forall id | id in t.requests :: RowOk(t, t.requests[id])
  }

  ghost predicate SourcesDistinct(t: Tables) {
    forall a, b | a in t.requests && b in t.requests && a != b :: t.requests[a].source != t.requests[b].source
  }

  /** The results row that a request must have, if any. */
  ghost function Expected(t: Tables, id: string): seq<Delivery> {
    if id in t.requests && t.requests[id].terminalResult.Some?
    then [Delivery(t.requests[id].terminalResult.value, t.requests[id].source)]
    else []
  }

  /** A request has an accepted result iff the outbox has exactly one results row for it, with that payload and source. */
  ghost predicate ResultsOk(t: Tables) {
    forall id :: Deliveries(t.outbox, RESULTS, id) == Expected(t, id)
  }

  /** A source position is poisoned iff exactly one dead-letter row carries its payload. */
  ghost predicate PoisonOk(t: Tables) {
    forall s: Source ::
      Deliveries(t.outbox, DLQ, SourceKey(s)) == if s in t.poison then [Delivery(Hex(t.poison[s].rawPayload), s)] else []
  }

  ghost predicate TablesOk(t: Tables) {
    RowsOk(t) && SourcesDistinct(t) && IdsAscend(t) && ResultsOk(t) && PoisonOk(t)
  }

  lemma AcquireKeeps(t: Tables, partition: int, routerId: string)
    requires TablesOk(t)
    ensures TablesOk(Acquired(t, partition, routerId))
  {
    hide Hex, SourceKey, Deliveries;
    var t' := Acquired(t, partition, routerId);
    assert forall id :: Expected(t', id) == Expected(t, id);
  }

  lemma RequestKeeps(t: Tables, t': Tables, id: string, row: RequestRow)
    requires TablesOk(t) && t' == t.(requests := t.requests[id := row]) && RowOk(t, row)
    requires if id in t.requests
             then row.source == t.requests[id].source && row.terminalResult == t.requests[id].terminalResult
             else row.terminalResult.None? && forall k | k in t.requests :: t.requests[k].source != row.source
    ensures TablesOk(t')
  {
    hide Hex, SourceKey, Deliveries;
    assert forall k :: Expected(t', k) == Expected(t, k);
    forall k | k in t'.requests ensures RowOk(t', t'.requests[k]) {
      assert k != id ==> RowOk(t, t.requests[k]);
    }
  }

  lemma FinalizeKeeps(t: Tables, id: string, fence: Fence, payload: string)
    requires TablesOk(t) && CanFinalize(t, id, fence)
    ensures TablesOk(Finalized(t, id, fence, payload))
    ensures |Finalized(t, id, fence, payload).outbox| == |t.outbox| + 1
  {
    hide Hex, SourceKey, Deliveries;
    var t' := Finalized(t, id, fence, payload);
    assert RowOk(t, t.requests[id]);
    assert Deliveries(t.outbox, RESULTS, id) == Expected(t, id) == [];
    var row := OutboxRow(t.nextOutboxId, RESULTS, id, payload, t.requests[id].source, false);
    assert t'.outbox == t.outbox + [row];
    forall k ensures Deliveries(t'.outbox, RESULTS, k) == Expected(t', k) {
      DeliveriesAppend(t.outbox, row, RESULTS, k);
      assert Deliveries(t.outbox, RESULTS, k) == Expected(t, k);
    }
    forall s: Source ensures Deliveries(t'.outbox, DLQ, SourceKey(s)) == Deliveries(t.outbox, DLQ, SourceKey(s)) {
      DeliveriesAppend(t.outbox, row, DLQ, SourceKey(s));
    }
    forall k | k in t'.requests ensures RowOk(t', t'.requests[k]) {
      assert RowOk(t, t.requests[k]);
    }
  }

  lemma PoisonKeeps(t: Tables, source: Source, rawPayload: seq<byte>, error: string)
    requires TablesOk(t)
    ensures TablesOk(Poisoned(t, source, rawPayload, error))
  {
    hide Hex, SourceKey, Deliveries;
    var t' := Poisoned(t, source, rawPayload, error);
    if source !in t.poison {
      assert Deliveries(t.outbox, DLQ, SourceKey(source)) == [];
      var row := OutboxRow(t.nextOutboxId, DLQ, SourceKey(source), Hex(rawPayload), source, false);
      assert t'.outbox == t.outbox + [row];
      forall k ensures Deliveries(t'.outbox, RESULTS, k) == Expected(t', k) {
        DeliveriesAppend(t.outbox, row, RESULTS, k);
        assert Deliveries(t.outbox, RESULTS, k) == Expected(t, k);
      }
      forall s: Source
        ensures Deliveries(t'.outbox, DLQ, SourceKey(s))
          == if s in t'.poison then [Delivery(Hex(t'.poison[s].rawPayload), s)] else []
      {
        DeliveriesAppend(t.outbox, row, DLQ, SourceKey(s));
        if SourceKey(s) == SourceKey(source) {
          SourceKeyInjective(s, source);
        }
      }
      forall k | k in t'.requests ensures RowOk(t', t'.requests[k]) {
        assert RowOk(t, t.requests[k]);
      }
    }
  }

  lemma MarkKeeps(t: Tables, id: nat)
    requires TablesOk(t)
    ensures TablesOk(Marked(t, id))
  {
    hide Hex, SourceKey, Deliveries;
    var t' := Marked(t, id);
    assert SameRows(t.outbox, t'.outbox);
    forall k ensures Deliveries(t'.outbox, RESULTS, k) == Expected(t', k) {
      DeliveriesSame(t.outbox, t'.outbox, RESULTS, k);
      assert Deliveries(t.outbox, RESULTS, k) == Expected(t, k);
    }
    forall s: Source ensures Deliveries(t'.outbox, DLQ, SourceKey(s)) == Deliveries(t.outbox, DLQ, SourceKey(s)) {
      DeliveriesSame(t.outbox, t'.outbox, DLQ, SourceKey(s));
    }
    forall k | k in t'.requests ensures RowOk(t', t'.requests[k]) {
      assert RowOk(t, t.requests[k]);
    }
  }

  /** Every transaction keeps the invariant. */
  lemma ApplyKeeps(t: Tables, op: Op)
    requires TablesOk(t)
    ensures TablesOk(Apply(t, op))
  {
    hide ResultsOk, PoisonOk, IdsAscend;
    var t' := Apply(t, op);
    match op
    case AcquirePartition(p, router) => AcquireKeeps(t, p, router);
    case Ingest(id, source, raw) =>
      if IsNew(t, id, source) {
        RequestKeeps(t, t', id, t'.requests[id]);
      }
    case AssignAttempt(id, p, epoch, _) =>
      if CanAssign(t, id, p, epoch) {
        assert RowOk(t, t.requests[id]);
        RequestKeeps(t, t', id, t'.requests[id]);
      }
    case Transition(id, version, state, next) =>
      if CanTransition(t, id, version, state) {
        assert RowOk(t, t.requests[id]);
        RequestKeeps(t, t', id, t'.requests[id]);
      }
    case Finalize(id, fence, payload) =>
      if CanFinalize(t, id, fence) {
        FinalizeKeeps(t, id, fence, payload);
      }
    case RecordPoison(source, raw, error) => PoisonKeeps(t, source, raw, error);
    case MarkPublished(id) => MarkKeeps(t, id);
  }

  lemma {:induction false} AtOk(ops: seq<Op>, i: nat)
    requires i <= |ops|
    ensures TablesOk(At(ops, i))
  {
    hide ResultsOk, PoisonOk, Apply;
    if i == 0 {
      FreshOk();
    } else {
      AtOk(ops, i - 1);
      AtNext(ops, i - 1);
      ApplyKeeps(At(ops, i - 1), ops[i - 1]);
    }
  }

  lemma FreshOk()
    ensures TablesOk(Fresh)
  {
    hide Hex, SourceKey;
  }

  /** A request has an accepted result exactly when one results row, and only one, carries its payload and source. */
  lemma AcceptedIffOneResultRow(ops: seq<Op>, i: nat, id: string)
    requires i <= |ops|
    ensures var t := At(ops, i); var rows := Deliveries(t.outbox, RESULTS, id);
      if id in t.requests && t.requests[id].terminalResult.Some?
      then rows == [Delivery(t.requests[id].terminalResult.value, t.requests[id].source)]
      else rows == []
  {
    hide Deliveries;
    AtOk(ops, i);
    assert Expected(At(ops, i), id) == Deliveries(At(ops, i).outbox, RESULTS, id);
  }

  // ---------------------------------------------------------------- fencing

  /** What one transaction does to the row of a request. */
  lemma RowStep(t: Tables, op: Op, id: string)
    requires id in t.requests
    ensures id in Apply(t, op).requests
    ensures var row, row' := t.requests[id], Apply(t, op).requests[id];
      && row'.source == row.source
      && (Terminal(row.state) ==> row' == row)
      && (if Assigns(t, op, id)
          then row'.attempt == row.attempt + 1 && row'.epoch == Some(op.epoch) && CarriesFence(row', Issued(t, op))
          else row'.attempt == row.attempt && row'.epoch == row.epoch && row'.engineId == row.engineId)
      && (if Finalizes(t, op, id) then row'.terminalResult == Some(op.payload) && Terminal(row'.state)
          else row'.terminalResult == row.terminalResult)
  {
  }

  lemma NewRow(t: Tables, op: Op, id: string)
    requires id !in t.requests && id in Apply(t, op).requests
    ensures var row := Apply(t, op).requests[id];
      && row.attempt == 0 && row.terminalResult.None?
      && op.Ingest? && op.id == id && op.source == row.source
  {
  }

  lemma {:induction false} RowLater(ops: seq<Op>, i: nat, j: nat, id: string)
    requires i <= j <= |ops| && id in At(ops, i).requests
    ensures id in At(ops, j).requests
    ensures var row, row' := At(ops, i).requests[id], At(ops, j).requests[id];
      && row'.source == row.source && row.attempt <= row'.attempt
      && (Terminal(row.state) ==> row' == row)
  {
    hide Apply, TablesOk;
    if i < j {
      RowLater(ops, i, j - 1, id);
      AtNext(ops, j - 1);
      RowStep(At(ops, j - 1), ops[j - 1], id);
    }
  }

  /** Finalize succeeds at most once per request, and what it stored stays. */
  lemma FinalizesOnce(ops: seq<Op>, i: nat, j: nat, id: string)
    requires i < j <= |ops| && Finalizes(At(ops, i), ops[i], id)
    ensures j < |ops| ==> !Finalizes(At(ops, j), ops[j], id)
    ensures id in At(ops, j).requests && At(ops, j).requests[id].terminalResult == Some(ops[i].payload)
  {
    hide Apply;
    AtNext(ops, i);
    RowStep(At(ops, i), ops[i], id);
    RowLater(ops, i + 1, j, id);
  }

  /** An accepted result was stored by a Finalize. */
  lemma {:induction false} AcceptedWasFinalized(ops: seq<Op>, j: nat, id: string) returns (i: nat)
    requires j <= |ops| && id in At(ops, j).requests && At(ops, j).requests[id].terminalResult.Some?
    ensures i < j && Finalizes(At(ops, i), ops[i], id)
    ensures At(ops, j).requests[id].terminalResult == Some(ops[i].payload)
  {
    hide Finalizes, Apply;
    if j > 0 {
      AtNext(ops, j - 1);
    }
    var t := At(ops, j - 1);
    if id !in t.requests {
      NewRow(t, ops[j - 1], id);
    } else {
      RowStep(t, ops[j - 1], id);
      if Finalizes(t, ops[j - 1], id) {
        i := j - 1;
      } else {
        i := AcceptedWasFinalized(ops, j - 1, id);
      }
    }
  }

  /** Finalize succeeds only with the most recently issued fence. */
  lemma {:induction false} RowFenceIsLastIssued(ops: seq<Op>, j: nat, id: string) returns (i: nat)
    requires j <= |ops| && id in At(ops, j).requests && At(ops, j).requests[id].attempt > 0
    ensures i < j && Assigns(At(ops, i), ops[i], id)
    ensures CarriesFence(At(ops, j).requests[id], Issued(At(ops, i), ops[i]))
    ensures forall k | i < k < j :: !Assigns(At(ops, k), ops[k], id)
  {
    hide Apply, Assigns, Issued, Finalizes;
    if j > 0 {
      AtNext(ops, j - 1);
    }
    var t := At(ops, j - 1);
    if id !in t.requests {
      NewRow(t, ops[j - 1], id);
    } else {
      RowStep(t, ops[j - 1], id);
      if Assigns(t, ops[j - 1], id) {
        i := j - 1;
      } else {
        i := RowFenceIsLastIssued(ops, j - 1, id);
      }
    }
  }

  lemma FinalizesWithLastFence(ops: seq<Op>, j: nat, id: string) returns (i: nat)
    requires j < |ops| && Finalizes(At(ops, j), ops[j], id)
    ensures i < j && Assigns(At(ops, i), ops[i], id) && ops[j].fence == Issued(At(ops, i), ops[i])
    ensures forall k | i < k < j :: !Assigns(At(ops, k), ops[k], id)
  {
    hide Apply, Issued, ResultsOk, PoisonOk;
    AtOk(ops, j);
    assert RowOk(At(ops, j), At(ops, j).requests[id]);
    i := RowFenceIsLastIssued(ops, j, id);
  }

  lemma EpochStep(t: Tables, op: Op, partition: int)
    requires partition in t.ownership
    ensures partition in Apply(t, op).ownership
    ensures t.ownership[partition].epoch <= Apply(t, op).ownership[partition].epoch
  {
  }

  lemma {:induction false} EpochsGrow(ops: seq<Op>, i: nat, j: nat, partition: int)
    requires i <= j <= |ops| && partition in At(ops, i).ownership
    ensures partition in At(ops, j).ownership
    ensures At(ops, i).ownership[partition].epoch <= At(ops, j).ownership[partition].epoch
  {
    hide Apply, After;
    if i < j {
      EpochsGrow(ops, i, j - 1, partition);
      AtNext(ops, j - 1);
      EpochStep(At(ops, j - 1), ops[j - 1], partition);
    }
  }

  /** Fences issued for a request strictly ascend in attempt and never descend in epoch. */
  lemma FencesAscend(ops: seq<Op>, i: nat, j: nat, id: string)
    requires i < j < |ops| && Assigns(At(ops, i), ops[i], id) && Assigns(At(ops, j), ops[j], id)
    ensures Issued(At(ops, i), ops[i]).attempt < Issued(At(ops, j), ops[j]).attempt
    ensures Issued(At(ops, i), ops[i]).epoch <= Issued(At(ops, j), ops[j]).epoch
    ensures Issued(At(ops, i), ops[i]).partition == Issued(At(ops, j), ops[j]).partition
  {
    hide Apply;
    AtNext(ops, i);
    RowStep(At(ops, i), ops[i], id);
    RowLater(ops, i, i + 1, id);
    RowLater(ops, i + 1, j, id);
    EpochsGrow(ops, i, j, ops[i].partition);
  }

  /** Each acquisition of a partition returns a larger epoch than every earlier one. */
  lemma AcquisitionsAscend(ops: seq<Op>, i: nat, j: nat, partition: int)
    requires i < j <= |ops| && ops[i].AcquirePartition? && ops[i].partition == partition
    ensures NextEpoch(At(ops, i), partition) < NextEpoch(At(ops, j), partition)
  {
    hide After;
    AtNext(ops, i);
    EpochsGrow(ops, i + 1, j, partition);
  }

  /** Once a partition has been acquired again, no router can assign under an earlier epoch. */
  lemma SupersededNeverAssigns(ops: seq<Op>, i: nat, j: nat, id: string, partition: int, epoch: nat)
    requires i < j <= |ops| && ops[i].AcquirePartition? && ops[i].partition == partition
    requires epoch < NextEpoch(At(ops, i), partition)
    ensures !CanAssign(At(ops, j), id, partition, epoch)
  {
    AcquisitionsAscend(ops, i, j, partition);
  }

  /**
     The exact condition of acceptance: the fence issued last is accepted exactly while the request is
     still dispatched, whatever has happened to the partition's ownership since.
   */
  lemma LastFenceFinalizesIffDispatched(ops: seq<Op>, i: nat, j: nat, id: string)
    requires i < j <= |ops| && Assigns(At(ops, i), ops[i], id)
    requires forall k | i < k < j :: !Assigns(At(ops, k), ops[k], id)
    ensures id in At(ops, j).requests
    ensures CanFinalize(At(ops, j), id, Issued(At(ops, i), ops[i])) <==> At(ops, j).requests[id].state == "DISPATCHED"
  {
    hide Apply, Issued, CarriesFence;
    AtNext(ops, i);
    RowStep(At(ops, i), ops[i], id);
    RowLater(ops, i + 1, j, id);
    var k := RowFenceIsLastIssued(ops, j, id);
    assert k == i;
  }

  /** A router takes the partition over, and the attempt of the old owner still completes. */
  const Takeover: seq<Op> := [
    AcquirePartition(0, "a"),
    Ingest("r", Source(0, 0), []),
    AssignAttempt("r", 0, 1, "e"),
    AcquirePartition(0, "b"),
    Finalize("r", Fence(0, 1, 1, "e"), "x")]

  lemma TakeoverSteps()
    ensures At(Takeover, 0) == Fresh
    ensures var t1 := Apply(Fresh, Takeover[0]);
      var t2 := Apply(t1, Takeover[1]);
      var t3 := Apply(t2, Takeover[2]);
      var t4 := Apply(t3, Takeover[3]);
      t4.ownership[0] == Owner(2, "b") && Finalizes(t4, Takeover[4], "r")
  {
    hide Deliveries;
  }

  lemma StaleEpochCanFinalize()
    ensures At(Takeover, 4).ownership[0] == Owner(2, "b")
    ensures Takeover[4].fence.epoch == 1 && Finalizes(At(Takeover, 4), Takeover[4], "r")
  {
    hide Deliveries, After, Apply;
    AtNext(Takeover, 0);
    AtNext(Takeover, 1);
    AtNext(Takeover, 2);
    AtNext(Takeover, 3);
    TakeoverSteps();
  }

  // ---------------------------------------------------------------- which offsets can ever be answered

  /** Source positions with an outcome: poisoned, or the position some accepted request was ingested from. */
  ghost function Outcomes(t: Tables): set<Source> {
    t.poison.Keys + set id | id in t.requests && t.requests[id].terminalResult.Some? :: t.requests[id].source
  }

  /** A results row is the accepted result of its request; a dead letter is the payload of its poisoned position. */
  ghost predicate Explained(t: Tables, row: OutboxRow) {
    || IsAccepted(t, row)
    || (row.topic == DLQ && row.messageKey == SourceKey(row.source) && row.source in t.poison
        && row.payload == Hex(t.poison[row.source].rawPayload))
  }

  ghost predicate IsAccepted(t: Tables, row: OutboxRow) {
    && row.topic == RESULTS && row.messageKey in t.requests
    && t.requests[row.messageKey].source == row.source
    && t.requests[row.messageKey].terminalResult == Some(row.payload)
  }

  ghost predicate RowsExplained(t: Tables) {
    forall i | 0 <= i < |t.outbox| :: Explained(t, t.outbox[i])
  }

  lemma PoisonStays(t: Tables, op: Op)
    ensures t.poison.Keys <= Apply(t, op).poison.Keys
    ensures forall s | s in t.poison :: Apply(t, op).poison[s] == t.poison[s]
  {
    hide Deliveries, Hex, SourceKey;
  }

  /** An outcome is never taken back. */
  lemma ExplainedStays(t: Tables, op: Op, row: OutboxRow)
    requires RowsOk(t) && Explained(t, row)
    ensures Explained(Apply(t, op), row)
  {
    hide Apply, Hex, SourceKey;
    if IsAccepted(t, row) {
      RowStep(t, op, row.messageKey);
      FinalizeIsNew(t, op, row.messageKey);
    } else {
      PoisonStays(t, op);
    }
  }

  lemma FinalizeIsNew(t: Tables, op: Op, id: string)
    requires RowsOk(t) && id in t.requests && t.requests[id].terminalResult.Some?
    ensures !Finalizes(t, op, id)
  {
    assert RowOk(t, t.requests[id]);
  }

  /** The row that a transaction adds, if any, comes with its outcome; the others change their mark at most. */
  lemma AddedRow(t: Tables, op: Op, i: nat)
    requires i < |Apply(t, op).outbox|
    ensures var row := Apply(t, op).outbox[i];
      if i < |t.outbox| then row == t.outbox[i].(published := row.published) else Explained(Apply(t, op), row)
  {
    hide Deliveries, Hex, SourceKey;
  }

  lemma ExplainedStep(t: Tables, op: Op)
    requires RowsOk(t) && RowsExplained(t)
    ensures RowsExplained(Apply(t, op))
  {
    hide Apply, RowsOk;
    forall i | 0 <= i < |Apply(t, op).outbox| ensures Explained(Apply(t, op), Apply(t, op).outbox[i]) {
      AddedRow(t, op, i);
      if i < |t.outbox| {
        ExplainedStays(t, op, t.outbox[i]);
      }
    }
  }

  /** In every history every outbox row is explained. */
  lemma {:induction false} RowsAreExplained(ops: seq<Op>, i: nat)
    requires i <= |ops|
    ensures RowsExplained(At(ops, i))
  {
    if i > 0 {
      hide RowsExplained, ResultsOk, PoisonOk, RowsOk, Apply;
      RowsAreExplained(ops, i - 1);
      AtOk(ops, i - 1);
      AtNext(ops, i - 1);
      ExplainedStep(At(ops, i - 1), ops[i - 1]);
    }
  }

  lemma {:induction false} DeliveredHasRow(outbox: seq<OutboxRow>, topic: string, key: string, d: Delivery) returns (i: nat)
    requires d in Deliveries(outbox, topic, key)
    ensures i < |outbox| && outbox[i].source == d.source
  {
    var n := |outbox| - 1;
    if outbox != [] && d in Deliveries(outbox[..n], topic, key) {
      i := DeliveredHasRow(outbox[..n], topic, key, d);
    } else {
      i := n;
    }
  }

  ghost predicate HasRow(t: Tables, source: Source) {
    exists i | 0 <= i < |t.outbox| :: t.outbox[i].source == source
  }

  /**
     A source position has an outbox row exactly when it is poisoned or an accepted request was ingested
     from that very position.
   */
  lemma AnsweredIffOutcome(ops: seq<Op>, n: nat, source: Source)
    requires n <= |ops|
    ensures HasRow(At(ops, n), source) <==> source in Outcomes(At(ops, n))
  {
    hide Deliveries, Hex, SourceKey;
    var t := At(ops, n);
    AtOk(ops, n);
    RowsAreExplained(ops, n);
    if source in t.poison {
      var i := DeliveredHasRow(t.outbox, DLQ, SourceKey(source), Delivery(Hex(t.poison[source].rawPayload), source));
    } else if source in Outcomes(t) {
      var id :| id in t.requests && t.requests[id].terminalResult.Some? && t.requests[id].source == source;
      assert Deliveries(t.outbox, RESULTS, id) == Expected(t, id);
      var i := DeliveredHasRow(t.outbox, RESULTS, id, Delivery(t.requests[id].terminalResult.value, source));
    }
    if HasRow(t, source) {
      var i :| 0 <= i < |t.outbox| && t.outbox[i].source == source;
      assert Explained(t, t.outbox[i]);
    }
  }

  // ---------------------------------------------------------------- a request id repeated at another offset

  /** A request row comes from an ingestion at its source position. */
  lemma {:induction false} HolderWasIngested(ops: seq<Op>, n: nat, id: string) returns (k: nat)
    requires n <= |ops| && id in At(ops, n).requests
    ensures k < n && ops[k].Ingest? && ops[k].id == id && ops[k].source == At(ops, n).requests[id].source
  {
    hide Apply, Finalizes, Assigns;
    if n > 0 {
      AtNext(ops, n - 1);
    }
    var t := At(ops, n - 1);
    if id !in t.requests {
      NewRow(t, ops[n - 1], id);
      k := n - 1;
    } else {
      RowStep(t, ops[n - 1], id);
      k := HolderWasIngested(ops, n - 1, id);
    }
  }

  lemma {:induction false} NeverPoisoned(ops: seq<Op>, n: nat, source: Source)
    requires n <= |ops| && forall k | 0 <= k < n :: ops[k].RecordPoison? ==> ops[k].source != source
    ensures source !in At(ops, n).poison
  {
    hide Deliveries, Hex, SourceKey;
    if n > 0 {
      NeverPoisoned(ops, n - 1, source);
      AtNext(ops, n - 1);
    }
  }

  /** Nobody poisons `source`, and nobody ingests a request other than `id` from it. */
  ghost predicate OnlyRepeats(ops: seq<Op>, id: string, source: Source) {
    && (forall k | 0 <= k < |ops| :: ops[k].RecordPoison? ==> ops[k].source != source)
    && (forall k | 0 <= k < |ops| :: ops[k].Ingest? && ops[k].source == source ==> ops[k].id == id)
  }

  /**
     A request that is already known from another position and is only repeated at `source` never gets an
     outbox row for `source`.
   */
  lemma RepeatIsNeverAnswered(ops: seq<Op>, i: nat, n: nat, id: string, source: Source)
    requires i <= n <= |ops| && id in At(ops, i).requests && At(ops, i).requests[id].source != source
    requires OnlyRepeats(ops[..n], id, source)
    ensures !HasRow(At(ops, n), source)
  {
    hide Apply, HasRow, After;
    AnsweredIffOutcome(ops, n, source);
    RowLater(ops, i, n, id);
    var t := At(ops, n);
    assert forall k | 0 <= k < n :: ops[..n][k] == ops[k];
    NeverPoisoned(ops, n, source);
    forall holder | holder in t.requests ensures t.requests[holder].source != source {
      var k := HolderWasIngested(ops, n, holder);
    }
  }

  /** The request "r" is ingested from offset 0, completes, and arrives again at offset 1. */
  const Repeat: seq<Op> := [
    AcquirePartition(0, "a"),
    Ingest("r", Source(0, 0), []),
    AssignAttempt("r", 0, 1, "e"),
    Finalize("r", Fence(0, 1, 1, "e"), "x"),
    Ingest("r", Source(0, 1), [])]

  lemma RepeatSteps()
    ensures At(Repeat, 0) == Fresh
    ensures var t2 := Apply(Apply(Fresh, Repeat[0]), Repeat[1]);
      var t3 := Apply(t2, Repeat[2]);
      "r" in t2.requests && t2.requests["r"].source == Source(0, 0) && Finalizes(t3, Repeat[3], "r")
  {
    hide Deliveries;
  }

  /** Offset 0 is answered and offset 1, which repeats the request, is not. */
  lemma RepeatedRequestIsNotAnswered()
    ensures HasRow(At(Repeat, 5), Source(0, 0)) && !HasRow(At(Repeat, 5), Source(0, 1))
  {
    hide Deliveries, After, Apply, HasRow, Finalizes;
    AtNext(Repeat, 0);
    AtNext(Repeat, 1);
    AtNext(Repeat, 2);
    RepeatSteps();
    RepeatIsNeverAnswered(Repeat, 2, 5, "r", Source(0, 1));
    RowLater(Repeat, 2, 5, "r");
    FinalizesOnce(Repeat, 3, 5, "r");
    AnsweredIffOutcome(Repeat, 5, Source(0, 0));
  }

  function RowsOf(outbox: seq<OutboxRow>, source: Source): nat {
    if outbox == [] then 0 else (if outbox[0].source == source then 1 else 0) + RowsOf(outbox[1..], source)
  }

  function PublishedRowsOf(outbox: seq<OutboxRow>, source: Source): nat {
    if outbox == [] then 0
    else (if outbox[0].source == source && outbox[0].published then 1 else 0) + PublishedRowsOf(outbox[1..], source)
  }

  lemma {:induction false} CountsAgree(outbox: seq<OutboxRow>, source: Source)
    ensures PublishedRowsOf(outbox, source) <= RowsOf(outbox, source)
    ensures RowsOf(outbox, source) > 0 <==> exists i | 0 <= i < |outbox| :: outbox[i].source == source
    ensures PublishedRowsOf(outbox, source) == RowsOf(outbox, source) <==>
      forall i | 0 <= i < |outbox| :: outbox[i].source == source ==> outbox[i].published
  {
    if outbox != [] {
      CountsAgree(outbox[1..], source);
      assert forall i | 0 < i < |outbox| :: outbox[i] == outbox[1..][i - 1];
      assert forall i | 0 <= i < |outbox| - 1 :: outbox[1..][i] == outbox[i + 1];
    }
  }

  /** A source counts as published exactly when it has rows and as many published ones: all of them, not just one. */
  lemma SourcePublishedIff(t: Tables, source: Source)
    ensures SourcePublished(t, source) <==>
      0 < RowsOf(t.outbox, source) == PublishedRowsOf(t.outbox, source)
  {
    CountsAgree(t.outbox, source);
  }

  // ---------------------------------------------------------------- exactly when a transaction succeeds

  /** How often a partition has been acquired. */
  function Acquisitions(ops: seq<Op>, partition: int): nat {
    if ops == [] then 0
    else
      var n := |ops| - 1;
      Acquisitions(ops[..n], partition)
      + if ops[n].AcquirePartition? && ops[n].partition == partition then 1 else 0
  }

  lemma AcquisitionsNext(ops: seq<Op>, n: nat, partition: int)
    requires n < |ops|
    ensures Acquisitions(ops[..n + 1], partition)
      == Acquisitions(ops[..n], partition) + if ops[n].AcquirePartition? && ops[n].partition == partition then 1 else 0
  {
    assert ops[..n + 1][..n] == ops[..n];
  }

  /** A partition's epoch is the number of its acquisitions. */
  lemma {:induction false} EpochIsCount(ops: seq<Op>, n: nat, partition: int)
    requires n <= |ops|
    ensures partition in At(ops, n).ownership <==> Acquisitions(ops[..n], partition) > 0
    ensures partition in At(ops, n).ownership ==>
      At(ops, n).ownership[partition].epoch == Acquisitions(ops[..n], partition)
  {
    hide Apply, After;
    if n == 0 {
      AtStart(ops);
    } else {
      EpochIsCount(ops, n - 1, partition);
      AtNext(ops, n - 1);
      AcquisitionsNext(ops, n - 1, partition);
      OwnershipStep(At(ops, n - 1), ops[n - 1], partition);
    }
  }

  lemma AtStart(ops: seq<Op>)
    ensures At(ops, 0) == Fresh
  {
  }

  lemma OwnershipStep(t: Tables, op: Op, partition: int)
    ensures var t' := Apply(t, op);
      if op.AcquirePartition? && op.partition == partition
      then partition in t'.ownership
           && t'.ownership[partition].epoch == if partition in t.ownership then t.ownership[partition].epoch + 1 else 1
      else (partition in t'.ownership <==> partition in t.ownership)
           && (partition in t.ownership ==> t'.ownership[partition] == t.ownership[partition])
  {
    hide Deliveries;
  }

  /** The k-th transaction inserts request `id` from `source`: neither was known. */
  ghost predicate Inserts(ops: seq<Op>, k: nat, id: string, source: Source)
    requires k < |ops|
  {
    && ops[k].Ingest? && ops[k].id == id && ops[k].source == source
    && id !in At(ops, k).requests && forall j | j in At(ops, k).requests :: At(ops, k).requests[j].source != source
  }

  ghost predicate KnownFrom(ops: seq<Op>, n: nat, id: string, source: Source)
    requires n <= |ops|
  {
    exists k | 0 <= k < n :: Inserts(ops, k, id, source)
  }

  /** A request is known from a position exactly when an ingestion found both id and position free. */
  lemma {:induction false} KnownIff(ops: seq<Op>, n: nat, id: string, source: Source)
    requires n <= |ops|
    ensures id in At(ops, n).requests && At(ops, n).requests[id].source == source <==> KnownFrom(ops, n, id, source)
  {
    if n > 0 {
      KnownIff(ops, n - 1, id, source);
      InsertStep(ops, n - 1, id, source);
      assert KnownFrom(ops, n, id, source) <==>
        KnownFrom(ops, n - 1, id, source) || Inserts(ops, n - 1, id, source);
    }
  }

  lemma InsertStep(ops: seq<Op>, k: nat, id: string, source: Source)
    requires k < |ops|
    ensures (id in At(ops, k + 1).requests && At(ops, k + 1).requests[id].source == source)
      <==> (id in At(ops, k).requests && At(ops, k).requests[id].source == source) || Inserts(ops, k, id, source)
  {
    AtNext(ops, k);
    var t, op := At(ops, k), ops[k];
    if id in t.requests {
      hide Apply;
      RowStep(t, op, id);
    } else {
      hide Deliveries, After;
    }
  }

  /** The transaction closes request `id`: it stores its result or moves it to a terminal state. */
  ghost predicate ClosesRow(t: Tables, op: Op, id: string) {
    && id in t.requests
    && var row := t.requests[id];
       || (op.Finalize? && op.id == id && CarriesFence(row, op.fence) && row.state == "DISPATCHED")
       || (op.Transition? && op.id == id && row.stateVersion == op.stateVersion && row.state == op.state
           && !Terminal(row.state) && Terminal(op.next))
  }

  ghost predicate Closes(ops: seq<Op>, k: nat, id: string)
    requires k < |ops|
  {
    ClosesRow(At(ops, k), ops[k], id)
  }

  ghost predicate Closed(ops: seq<Op>, n: nat, id: string)
    requires n <= |ops|
  {
    exists k | 0 <= k < n :: Closes(ops, k, id)
  }

  lemma {:induction false} TerminalIff(ops: seq<Op>, n: nat, id: string)
    requires n <= |ops| && id in At(ops, n).requests
    ensures Terminal(At(ops, n).requests[id].state) <==> Closed(ops, n, id)
  {
    hide Apply, After, Closes, Terminal;
    if n == 0 {
      AtStart(ops);
    } else {
      assert Closed(ops, n, id) <==> Closed(ops, n - 1, id) || Closes(ops, n - 1, id);
      if id in At(ops, n - 1).requests {
        TerminalIff(ops, n - 1, id);
        CloseStep(ops, n - 1, id);
      } else {
        NeverClosed(ops, n - 1, id);
        AtNext(ops, n - 1);
        NewRowIsOpen(At(ops, n - 1), ops[n - 1], id);
      }
    }
  }

  lemma NewRowIsOpen(t: Tables, op: Op, id: string)
    requires id !in t.requests && id in Apply(t, op).requests
    ensures !Terminal(Apply(t, op).requests[id].state)
  {
    hide Deliveries;
  }

  lemma NeverClosed(ops: seq<Op>, n: nat, id: string)
    requires n <= |ops| && id !in At(ops, n).requests
    ensures !Closed(ops, n, id) && (n < |ops| ==> !Closes(ops, n, id))
  {
    forall k | 0 <= k < n ensures !Closes(ops, k, id) {
      if id in At(ops, k).requests {
        RowLater(ops, k, n, id);
      }
    }
  }

  lemma CloseStep(ops: seq<Op>, k: nat, id: string)
    requires k < |ops| && id in At(ops, k).requests
    ensures id in At(ops, k + 1).requests
    ensures Terminal(At(ops, k + 1).requests[id].state) <==> Terminal(At(ops, k).requests[id].state) || Closes(ops, k, id)
  {
    hide Apply, After, Terminal, ClosesRow;
    AtNext(ops, k);
    RowStep(At(ops, k), ops[k], id);
    CloseRowStep(At(ops, k), ops[k], id);
  }

  lemma CloseRowStep(t: Tables, op: Op, id: string)
    requires id in t.requests
    ensures id in Apply(t, op).requests
    ensures Terminal(Apply(t, op).requests[id].state) <==> Terminal(t.requests[id].state) || ClosesRow(t, op, id)
  {
    hide Deliveries, Apply, Terminal;
    KnownStates();
    if op.Finalize? || op.Transition? || op.AssignAttempt? {
      StateChange(t, op, id);
    } else {
      StateStays(t, op, id);
    }
  }

  lemma KnownStates()
    ensures Terminal("COMPLETED") && !Terminal("DISPATCHED")
  {
    assert |"DISPATCHED"| == 10 && |"COMPLETED"| == 9 && |"FAILED_TERMINAL"| == 15 && |"CANCELLED"| == |"TIMED_OUT"| == 9;
  }

  lemma StateStays(t: Tables, op: Op, id: string)
    requires id in t.requests && !op.Finalize? && !op.Transition? && !op.AssignAttempt?
    ensures id in Apply(t, op).requests && Apply(t, op).requests[id] == t.requests[id]
  {
    hide Deliveries, Terminal;
  }

  lemma StateChange(t: Tables, op: Op, id: string)
    requires id in t.requests && (op.Finalize? || op.Transition? || op.AssignAttempt?)
    ensures id in Apply(t, op).requests
    ensures var row, state := t.requests[id], Apply(t, op).requests[id].state;
      if op.id != id then state == row.state
      else if op.Finalize?
      then state == if CarriesFence(row, op.fence) && row.state == "DISPATCHED" then "COMPLETED" else row.state
      else if op.Transition?
      then state == if row.stateVersion == op.stateVersion && row.state == op.state && !Terminal(row.state)
                    then op.next else row.state
      else state == row.state || (state == "DISPATCHED" && !Terminal(row.state))
  {
    hide Deliveries, Terminal;
  }

  /**
     An assignment succeeds exactly when the request was ingested from that partition, the epoch is the one
     of the partition's last acquisition, and no result and no terminal state has closed the request.
   */
  lemma AssignsIff(ops: seq<Op>, n: nat, id: string, partition: int, epoch: nat)
    requires n <= |ops|
    ensures CanAssign(At(ops, n), id, partition, epoch) <==>
      && (exists offset :: KnownFrom(ops, n, id, Source(partition, offset)))
      && epoch == Acquisitions(ops[..n], partition) > 0
      && !Closed(ops, n, id)
  {
    hide After, Acquisitions, KnownFrom, Closed;
    EpochIsCount(ops, n, partition);
    var t := At(ops, n);
    if id in t.requests {
      TerminalIff(ops, n, id);
      KnownIff(ops, n, id, t.requests[id].source);
      assert t.requests[id].source == Source(t.requests[id].source.partition, t.requests[id].source.offset);
    }
    forall offset ensures KnownFrom(ops, n, id, Source(partition, offset)) <==>
        id in t.requests && t.requests[id].source == Source(partition, offset)
    {
      KnownIff(ops, n, id, Source(partition, offset));
    }
  }

  /** One epoch, two assignments of one request. */
  const Reassigned: seq<Op> := [
    AcquirePartition(0, "a"),
    Ingest("r", Source(0, 0), []),
    AssignAttempt("r", 0, 1, "engine-a"),
    AssignAttempt("r", 0, 1, "engine-b")]

  lemma ReassignedSteps()
    ensures At(Reassigned, 0) == Fresh
    ensures var t2 := Apply(Apply(Fresh, Reassigned[0]), Reassigned[1]);
      var t3 := Apply(t2, Reassigned[2]);
      var t4 := Apply(t3, Reassigned[3]);
      && Assigns(t2, Reassigned[2], "r") && Issued(t2, Reassigned[2]) == Fence(0, 1, 1, "engine-a")
      && Assigns(t3, Reassigned[3], "r") && Issued(t3, Reassigned[3]) == Fence(0, 1, 2, "engine-b")
      && !CanFinalize(t4, "r", Fence(0, 1, 1, "engine-a")) && CanFinalize(t4, "r", Fence(0, 1, 2, "engine-b"))
  {
    hide Deliveries;
  }

  /** Both assignments succeed; then the first fence no longer finalizes and the second does. */
  lemma SecondAssignmentFencesFirst()
    ensures Assigns(At(Reassigned, 2), Reassigned[2], "r")
      && Issued(At(Reassigned, 2), Reassigned[2]) == Fence(0, 1, 1, "engine-a")
    ensures Assigns(At(Reassigned, 3), Reassigned[3], "r")
      && Issued(At(Reassigned, 3), Reassigned[3]) == Fence(0, 1, 2, "engine-b")
    ensures !CanFinalize(At(Reassigned, 4), "r", Fence(0, 1, 1, "engine-a"))
      && CanFinalize(At(Reassigned, 4), "r", Fence(0, 1, 2, "engine-b"))
  {
    hide Deliveries, After, Apply, Assigns, Issued, CanFinalize;
    AtNext(Reassigned, 0);
    AtNext(Reassigned, 1);
    AtNext(Reassigned, 2);
    AtNext(Reassigned, 3);
    ReassignedSteps();
  }

  lemma VersionStep(t: Tables, op: Op, id: string)
    requires id in t.requests
    ensures id in Apply(t, op).requests
    ensures var row, row' := t.requests[id], Apply(t, op).requests[id];
      row' == row || row'.stateVersion == row.stateVersion + 1
  {
    hide Deliveries;
  }

  /** Every change of a row raises its version, so an unchanged version means an unchanged row. */
  lemma {:induction false} VersionLater(ops: seq<Op>, i: nat, n: nat, id: string)
    requires i <= n <= |ops| && id in At(ops, i).requests
    ensures id in At(ops, n).requests
    ensures var row, row' := At(ops, i).requests[id], At(ops, n).requests[id];
      row.stateVersion <= row'.stateVersion && (row.stateVersion == row'.stateVersion ==> row' == row)
  {
    hide Apply;
    if i < n {
      VersionLater(ops, i, n - 1, id);
      AtNext(ops, n - 1);
      VersionStep(At(ops, n - 1), ops[n - 1], id);
    }
  }

  /** A transition with the version and state read earlier succeeds exactly if the row was not closed nor changed since. */
  lemma TransitionsIffUnchanged(ops: seq<Op>, i: nat, n: nat, id: string)
    requires i <= n <= |ops| && id in At(ops, i).requests
    ensures id in At(ops, n).requests
    ensures var row := At(ops, i).requests[id];
      CanTransition(At(ops, n), id, row.stateVersion, row.state) <==>
        !Terminal(row.state) && At(ops, n).requests[id] == row
  {
    hide After;
    VersionLater(ops, i, n, id);
  }

  /** What a successful transition does, and a refused one does not. */
  lemma TransitionMoves(t: Tables, id: string, version: nat, state: string, next: string)
    ensures var t' := Apply(t, Transition(id, version, state, next));
      if id in t.requests && t.requests[id].stateVersion == version && t.requests[id].state == state && !Terminal(state)
      then t' == t.(requests := t.requests[id := t.requests[id].(state := next, stateVersion := version + 1)])
      else t' == t
  {
  }

  /** A source position is poisoned exactly when somebody recorded it as poison; the first record stays. */
  lemma {:induction false} PoisonedIff(ops: seq<Op>, n: nat, source: Source)
    requires n <= |ops|
    ensures source in At(ops, n).poison <==> exists k | 0 <= k < n :: ops[k].RecordPoison? && ops[k].source == source
    ensures source in At(ops, n).poison ==>
      exists k | 0 <= k < n :: FirstPoison(ops, k, source)
        && At(ops, n).poison[source] == PoisonRow(ops[k].rawPayload, ops[k].error)
  {
    if n > 0 {
      PoisonedIff(ops, n - 1, source);
      AtNext(ops, n - 1);
      PoisonStep(At(ops, n - 1), ops[n - 1], source);
      if source in At(ops, n).poison && source !in At(ops, n - 1).poison {
        assert FirstPoison(ops, n - 1, source);
      }
    }
  }

  ghost predicate FirstPoison(ops: seq<Op>, k: nat, source: Source)
    requires k < |ops|
  {
    && ops[k].RecordPoison? && ops[k].source == source
    && forall j | 0 <= j < k :: !(ops[j].RecordPoison? && ops[j].source == source)
  }

  lemma PoisonStep(t: Tables, op: Op, source: Source)
    ensures if source in t.poison then source in Apply(t, op).poison && Apply(t, op).poison[source] == t.poison[source]
            else if op.RecordPoison? && op.source == source
            then source in Apply(t, op).poison && Apply(t, op).poison[source] == PoisonRow(op.rawPayload, op.error)
            else source !in Apply(t, op).poison
  {
    hide Deliveries, Hex, SourceKey;
  }
}
