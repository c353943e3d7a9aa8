/**
 The durable tables and their transactions (cpp/src/durable_store.cpp). Each transaction is one function
 from tables to tables; the class below runs them in place. Row ids of the outbox come from a counter
 that an insert consumes even when it conflicts, so ids ascend but may skip.
 */
module DurableStores {
  import opened Arithmetic
  import opened Text

  newtype byte = x: int | 0 <= x < 256

  datatype Source = Source(partition: int, offset: int)

  datatype Owner = Owner(epoch: nat, routerId: string)

  datatype Fence = Fence(partition: int, epoch: nat, attempt: nat, engineId: string)

  datatype Assignment = Assignment(fence: Fence, stateVersion: nat)

  /** `assigned` holds the epoch and engine columns, which are null until the first assignment. */
  datatype RequestRow = RequestRow(
    state: string,
    stateVersion: nat,
    source: Source,
    rawPayload: seq<byte>,
    epoch: Option<nat>,
    engineId: Option<string>,
    attempt: nat,
    terminalResult: Option<string>)

  datatype OutboxRow = OutboxRow(
    id: nat,
    topic: string,
    messageKey: string,
    payload: string,
    source: Source,
    published: bool)

  datatype PoisonRow = PoisonRow(rawPayload: seq<byte>, error: string)

  datatype Tables = Tables(
    ownership: map<int, Owner>,
    requests: map<string, RequestRow>,
    poison: map<Source, PoisonRow>,
    outbox: seq<OutboxRow>,
    nextOutboxId: nat)

  const RESULTS: string := "inference.results"
  const DLQ: string := "inference.dlq"

  const Fresh: Tables := Tables(map[], map[], map[], [], 1)

  predicate Terminal(state: string) {
    state == "COMPLETED" || state == "FAILED_TERMINAL" || state == "CANCELLED" || state == "TIMED_OUT"
  }

  const TerminalStates: set<string> := {"COMPLETED", "FAILED_TERMINAL", "CANCELLED", "TIMED_OUT"}

  lemma TerminalIffListed(state: string)
    ensures Terminal(state) <==> state in TerminalStates
  {
  }

  // ---------------------------------------------------------------- transactions

  /** What one outbox row says, without its id and its publication mark. */
  datatype Delivery = Delivery(payload: string, source: Source)

  /** The rows of one topic and key, in id order. */
  function Deliveries(outbox: seq<OutboxRow>, topic: string, key: string): seq<Delivery> {
    if outbox == [] then []
    else
      var n := |outbox| - 1;
      Deliveries(outbox[..n], topic, key) +
      if outbox[n].topic == topic && outbox[n].messageKey == key then [Delivery(outbox[n].payload, outbox[n].source)]
      else []
  }

  /** INSERT ... ON CONFLICT (topic, message_key) DO NOTHING. */
  function WithOutboxRow(t: Tables, topic: string, key: string, payload: string, source: Source): Tables {
    var next := t.(nextOutboxId := t.nextOutboxId + 1);
    if Deliveries(t.outbox, topic, key) != [] then next
    else next.(outbox := t.outbox + [OutboxRow(t.nextOutboxId, topic, key, payload, source, false)])
  }

  function NextEpoch(t: Tables, partition: int): nat {
    if partition in t.ownership then t.ownership[partition].epoch + 1 else 1
  }

  function Acquired(t: Tables, partition: int, routerId: string): Tables {
    t.(ownership := t.ownership[partition := Owner(NextEpoch(t, partition), routerId)])
  }

  /** Neither the request id nor its source position is taken. */
  predicate IsNew(t: Tables, id: string, source: Source) {
    id !in t.requests && forall k | k in t.requests :: t.requests[k].source != source
  }

  function Ingested(t: Tables, id: string, source: Source, rawPayload: seq<byte>): Tables {
    if IsNew(t, id, source)
    then t.(requests := t.requests[id := RequestRow("RECEIVED", 0, source, rawPayload, None, None, 0, None)])
    else t
  }

  predicate CanAssign(t: Tables, id: string, partition: int, epoch: nat) {
    && id in t.requests && t.requests[id].source.partition == partition
    && partition in t.ownership && t.ownership[partition].epoch == epoch
    && !Terminal(t.requests[id].state)
  }

  /** The fence that a successful assignment returns. */
  function NextFence(t: Tables, id: string, partition: int, epoch: nat, engineId: string): Fence
    requires id in t.requests
  {
    Fence(partition, epoch, t.requests[id].attempt + 1, engineId)
  }

  function AssignedTo(t: Tables, id: string, partition: int, epoch: nat, engineId: string): Tables {
    if CanAssign(t, id, partition, epoch)
    then
      var row := t.requests[id];
      t.(requests := t.requests[id := row.(state := "DISPATCHED", stateVersion := row.stateVersion + 1,
                                           epoch := Some(epoch), engineId := Some(engineId), attempt := row.attempt + 1)])
    else t
  }

  predicate CanTransition(t: Tables, id: string, stateVersion: nat, state: string) {
    id in t.requests && t.requests[id].stateVersion == stateVersion && t.requests[id].state == state && !Terminal(state)
  }

  function Transitioned(t: Tables, id: string, stateVersion: nat, state: string, next: string): Tables {
    if CanTransition(t, id, stateVersion, state)
    then t.(requests := t.requests[id := t.requests[id].(state := next, stateVersion := stateVersion + 1)])
    else t
  }

  /** The fence stored in the request row; no row carries one before its first assignment. */
  predicate CarriesFence(row: RequestRow, fence: Fence) {
    && row.source.partition == fence.partition && row.epoch == Some(fence.epoch)
    && row.attempt == fence.attempt && row.engineId == Some(fence.engineId)
  }

  predicate CanFinalize(t: Tables, id: string, fence: Fence) {
    id in t.requests && CarriesFence(t.requests[id], fence) && t.requests[id].state == "DISPATCHED"
  }

  function Finalized(t: Tables, id: string, fence: Fence, payload: string): Tables {
    if CanFinalize(t, id, fence)
    then
      var row := t.requests[id];
      WithOutboxRow(
        t.(requests := t.requests[id := row.(state := "COMPLETED", stateVersion := row.stateVersion + 1,
                                             terminalResult := Some(payload))]),
        RESULTS, id, payload, row.source)
    else t
  }

  function HexDigit(d: nat): char
    requires d < 16
  {
    "0123456789abcdef"[d]
  }

  /** PostgreSQL's encode(bytes, 'hex'). */
  function Hex(bytes: seq<byte>): string {
    if bytes == [] then ""
    else [HexDigit(bytes[0] as int / 16), HexDigit(bytes[0] as int % 16)] + Hex(bytes[1..])
  }

  function HexValue(c: char): (v: nat)
    ensures v < 16
  {
    if '0' <= c <= '9' then c as int - '0' as int else if 'a' <= c <= 'f' then c as int - 'a' as int + 10 else 0
  }

  /** Reads bytes back from pairs of digits, the high one first. */
  function Unhex(s: string): seq<byte> {
    if |s| < 2 then [] else [(16 * HexValue(s[0]) + HexValue(s[1])) as byte] + Unhex(s[2..])
  }

  lemma DigitReadsBack(d: nat)
    requires d < 16
    ensures HexValue(HexDigit(d)) == d
  {
    assert d == 0 || d == 1 || d == 2 || d == 3 || d == 4 || d == 5 || d == 6 || d == 7 || d == 8 || d == 9 || d == 10
      || d == 11 || d == 12 || d == 13 || d == 14 || d == 15;
  }

  lemma {:induction false} HexReadsBack(bytes: seq<byte>)
    ensures |Hex(bytes)| == 2 * |bytes| && Unhex(Hex(bytes)) == bytes
  {
    hide HexDigit, HexValue;
    if bytes != [] {
      HexReadsBack(bytes[1..]);
      DigitReadsBack(bytes[0] as int / 16);
      DigitReadsBack(bytes[0] as int % 16);
      assert Hex(bytes)[2..] == Hex(bytes[1..]);
      assert bytes == [bytes[0]] + bytes[1..];
    }
  }

  /** Hex writes two digits a byte, the high one first, and reads back to the bytes. */
  lemma {:induction false} HexRoundTrip(bytes: seq<byte>, i: nat)
    requires i < |bytes|
    ensures |Hex(bytes)| == 2 * |bytes| && Unhex(Hex(bytes)) == bytes
    ensures HexValue(Hex(bytes)[2 * i]) == bytes[i] as int / 16 && HexValue(Hex(bytes)[2 * i + 1]) == bytes[i] as int % 16
  {
    hide HexDigit, HexValue, Unhex;
    HexReadsBack(bytes);
    var rest := Hex(bytes[1..]);
    if i == 0 {
      DigitReadsBack(bytes[0] as int / 16);
      DigitReadsBack(bytes[0] as int % 16);
    } else {
      HexRoundTrip(bytes[1..], i - 1);
      assert Hex(bytes)[2..] == rest;
      assert Hex(bytes)[2 * i] == rest[2 * (i - 1)] && Hex(bytes)[2 * i + 1] == rest[2 * (i - 1) + 1];
    }
  }

  function SourceKey(source: Source): string {
    Signed(source.partition) + [':'] + Signed(source.offset)
  }

  /** Different source positions have different dead-letter keys. */
  lemma SourceKeyInjective(a: Source, b: Source)
    requires SourceKey(a) == SourceKey(b)
    ensures a == b
  {
    hide Signed;
    SignedHasNoColon(a.partition);
    SignedHasNoColon(b.partition);
    SplitAtDelimiter(Signed(a.partition), Signed(b.partition), ':', Signed(a.offset), Signed(b.offset));
    SignedInjective(a.partition, b.partition);
    SignedInjective(a.offset, b.offset);
  }

  function Poisoned(t: Tables, source: Source, rawPayload: seq<byte>, error: string): Tables {
    if source in t.poison then t
    else WithOutboxRow(t.(poison := t.poison[source := PoisonRow(rawPayload, error)]), DLQ, SourceKey(source), Hex(rawPayload), source)
  }

  function MarkedRows(outbox: seq<OutboxRow>, id: nat): (r: seq<OutboxRow>)
    ensures |r| == |outbox|
    ensures forall i | 0 <= i < |r| :: r[i] == if outbox[i].id == id then outbox[i].(published := true) else outbox[i]
  {
    if outbox == [] then []
    else
      var row := outbox[0];
      [if row.id == id then row.(published := true) else row] + MarkedRows(outbox[1..], id)
  }

  function Marked(t: Tables, id: nat): Tables {
    t.(outbox := MarkedRows(t.outbox, id))
  }

  /** The unpublished rows in id order, at most `limit` of them. */
  function Unpublished(outbox: seq<OutboxRow>, limit: nat): seq<OutboxRow> {
    if outbox == [] || limit == 0 then []
    else if outbox[0].published then Unpublished(outbox[1..], limit)
    else [outbox[0]] + Unpublished(outbox[1..], limit - 1)
  }

  function UnpublishedCount(outbox: seq<OutboxRow>): nat {
    if outbox == [] then 0 else (if outbox[0].published then 0 else 1) + UnpublishedCount(outbox[1..])
  }

  ghost predicate Ascending(outbox: seq<OutboxRow>) {
    forall i, j | 0 <= i < j < |outbox| :: outbox[i].id < outbox[j].id
  }

  lemma {:induction false} UnpublishedRows(outbox: seq<OutboxRow>, limit: nat)
    ensures |Unpublished(outbox, limit)| == Min(limit, UnpublishedCount(outbox))
    ensures forall r | r in Unpublished(outbox, limit) :: r in outbox && !r.published
  {
    if outbox != [] && limit > 0 {
      UnpublishedRows(outbox[1..], if outbox[0].published then limit else limit - 1);
      assert outbox == [outbox[0]] + outbox[1..];
    }
  }

  lemma UnpublishedStep(outbox: seq<OutboxRow>, i: nat, n: nat)
    requires i < |outbox| && n > 0
    ensures Unpublished(outbox[i..], n)
      == if outbox[i].published then Unpublished(outbox[i + 1..], n) else [outbox[i]] + Unpublished(outbox[i + 1..], n - 1)
  {
    assert outbox[i..][1..] == outbox[i + 1..];
  }

  lemma NothingToFetch(outbox: seq<OutboxRow>, n: nat)
    requires outbox == [] || n == 0
    ensures Unpublished(outbox, n) == []
  {
  }

  /** Rows of `rows` stand in id order, before every other unpublished row of the outbox. */
  ghost predicate ComesFirst(rows: seq<OutboxRow>, outbox: seq<OutboxRow>) {
    && Ascending(rows)
    && forall r, q | r in rows && q in outbox && !q.published && q !in rows :: r.id < q.id
  }

  /** With ascending ids a fetch is in id order and comes before every unpublished row it leaves out. */
  lemma {:induction false} UnpublishedComesFirst(outbox: seq<OutboxRow>, limit: nat)
    requires Ascending(outbox)
    ensures ComesFirst(Unpublished(outbox, limit), outbox)
  {
    if outbox != [] && limit > 0 {
      var head, rest := outbox[0], outbox[1..];
      assert outbox == [head] + rest;
      assert forall q | q in rest :: head.id < q.id;
      var n := if head.published then limit else limit - 1;
      UnpublishedComesFirst(rest, n);
      UnpublishedRows(rest, n);
      hide Ascending;
      if head.published {
        StayInFront(head, Unpublished(rest, n), rest);
      } else {
        PutInFront(head, Unpublished(rest, n), rest);
      }
    }
  }

  lemma StayInFront(head: OutboxRow, rows: seq<OutboxRow>, rest: seq<OutboxRow>)
    requires ComesFirst(rows, rest) && head.published
    ensures ComesFirst(rows, [head] + rest)
  {
  }

  lemma PutInFront(head: OutboxRow, rows: seq<OutboxRow>, rest: seq<OutboxRow>)
    requires ComesFirst(rows, rest) && (forall q | q in rest :: head.id < q.id) && forall r | r in rows :: r in rest
    ensures ComesFirst([head] + rows, [head] + rest)
  {
    var all := [head] + rows;
    forall i, j | 0 <= i < j < |all| ensures all[i].id < all[j].id {
      assert all[j] == rows[j - 1] && rows[j - 1] in rows;
      assert i > 0 ==> all[i] == rows[i - 1];
    }
  }

  /** There is an outbox row for the source, and every such row is published. */
  predicate SourcePublished(t: Tables, source: Source) {
    && (exists i | 0 <= i < |t.outbox| :: t.outbox[i].source == source)
    && (forall i | 0 <= i < |t.outbox| :: t.outbox[i].source == source ==> t.outbox[i].published)
  }

  // ---------------------------------------------------------------- any caller, any interleaving

  /** One transaction of any router, engine or relay. */
  datatype Op =
    | AcquirePartition(partition: int, routerId: string)
    | Ingest(id: string, source: Source, rawPayload: seq<byte>)
    | AssignAttempt(id: string, partition: int, epoch: nat, engineId: string)
    | Transition(id: string, stateVersion: nat, state: string, next: string)
    | Finalize(id: string, fence: Fence, payload: string)
    | RecordPoison(source: Source, rawPayload: seq<byte>, error: string)
    | MarkPublished(outboxId: nat)

  function Apply(t: Tables, op: Op): Tables {
    match op
    case AcquirePartition(p, router) => Acquired(t, p, router)
    case Ingest(id, source, raw) => Ingested(t, id, source, raw)
    case AssignAttempt(id, p, epoch, engine) => AssignedTo(t, id, p, epoch, engine)
    case Transition(id, version, state, next) => Transitioned(t, id, version, state, next)
    case Finalize(id, fence, payload) => Finalized(t, id, fence, payload)
    case RecordPoison(source, raw, error) => Poisoned(t, source, raw, error)
    case MarkPublished(id) => Marked(t, id)
  }

  /** `op` assigns a new attempt of request `id`. */
  ghost predicate Assigns(t: Tables, op: Op, id: string) {
    op.AssignAttempt? && op.id == id && CanAssign(t, id, op.partition, op.epoch)
  }

  ghost function Issued(t: Tables, op: Op): Fence
    requires op.AssignAttempt? && op.id in t.requests
  {
    NextFence(t, op.id, op.partition, op.epoch, op.engineId)
  }

  ghost predicate Finalizes(t: Tables, op: Op, id: string) {
    op.Finalize? && op.id == id && CanFinalize(t, id, op.fence)
  }

  ghost function After(t: Tables, ops: seq<Op>): Tables {
    if ops == [] then t else Apply(After(t, ops[..|ops| - 1]), ops[|ops| - 1])
  }

  /** The tables that the i-th transaction of a history sees. */
  ghost function At(ops: seq<Op>, i: nat): Tables
    requires i <= |ops|
  {
    After(Fresh, ops[..i])
  }

  lemma AtNext(ops: seq<Op>, i: nat)
    requires i < |ops|
    ensures At(ops, i + 1) == Apply(At(ops, i), ops[i])
  {
    assert ops[..i + 1][..i] == ops[..i];
  }

  /** The store itself: each method is one transaction on the tables in place. */
  class DurableStore {
    var ownership: map<int, Owner>
    var requests: map<string, RequestRow>
    var poison: map<Source, PoisonRow>
    var outbox: seq<OutboxRow>
    var nextOutboxId: nat

    function View(): Tables
      reads this
    {
      Tables(ownership, requests, poison, outbox, nextOutboxId)
    }

    constructor ()
      ensures View() == Fresh
    {
      ownership, requests, poison, outbox, nextOutboxId := map[], map[], map[], [], 1;
    }

    method AcquirePartition(partition: int, routerId: string) returns (epoch: nat)
      modifies this
      ensures View() == Acquired(old(View()), partition, routerId) && epoch == NextEpoch(old(View()), partition)
    {
      epoch := 1;
      if partition in ownership {
        epoch := ownership[partition].epoch + 1;
      }
      ownership := ownership[partition := Owner(epoch, routerId)];
    }

    method Ingest(id: string, source: Source, rawPayload: seq<byte>) returns (inserted: bool)
      modifies this
      ensures View() == Ingested(old(View()), id, source, rawPayload) && inserted == IsNew(old(View()), id, source)
    {
      inserted := id !in requests && forall k | k in requests :: requests[k].source != source;
      if inserted {
        requests := requests[id := RequestRow("RECEIVED", 0, source, rawPayload, None, None, 0, None)];
      }
    }

    method AssignAttempt(id: string, partition: int, epoch: nat, engineId: string) returns (r: Option<Assignment>)
      modifies this
      ensures View() == AssignedTo(old(View()), id, partition, epoch, engineId)
      ensures r.Some? <==> CanAssign(old(View()), id, partition, epoch)
      ensures r.Some? ==> r.value.fence == NextFence(old(View()), id, partition, epoch, engineId)
                          && r.value.stateVersion == requests[id].stateVersion
    {
      if id !in requests || partition !in ownership {
        return None;
      }
      var row := requests[id];
      if row.source.partition != partition || ownership[partition].epoch != epoch || Terminal(row.state) {
        return None;
      }
      row := row.(state := "DISPATCHED", stateVersion := row.stateVersion + 1, epoch := Some(epoch),
                  engineId := Some(engineId), attempt := row.attempt + 1);
      requests := requests[id := row];
      return Some(Assignment(Fence(partition, epoch, row.attempt, engineId), row.stateVersion));
    }

    method Transition(id: string, stateVersion: nat, state: string, next: string) returns (updated: bool)
      modifies this
      ensures View() == Transitioned(old(View()), id, stateVersion, state, next)
      ensures updated == CanTransition(old(View()), id, stateVersion, state)
    {
      updated := id in requests && requests[id].stateVersion == stateVersion && requests[id].state == state
                 && !Terminal(state);
      if updated {
        requests := requests[id := requests[id].(state := next, stateVersion := requests[id].stateVersion + 1)];
      }
    }

    method InsertOutbox(topic: string, key: string, payload: string, source: Source)
      modifies this`outbox, this`nextOutboxId
      ensures View() == WithOutboxRow(old(View()), topic, key, payload, source)
    {
      if Deliveries(outbox, topic, key) == [] {
        outbox := outbox + [OutboxRow(nextOutboxId, topic, key, payload, source, false)];
      }
      nextOutboxId := nextOutboxId + 1;
    }

    method Finalize(id: string, fence: Fence, payload: string) returns (accepted: bool)
      modifies this
      ensures View() == Finalized(old(View()), id, fence, payload) && accepted == CanFinalize(old(View()), id, fence)
    {
      if id !in requests || !CarriesFence(requests[id], fence) || requests[id].state != "DISPATCHED" {
        return false;
      }
      var row := requests[id];
      requests := requests[id := row.(state := "COMPLETED", stateVersion := row.stateVersion + 1,
                                      terminalResult := Some(payload))];
      InsertOutbox(RESULTS, id, payload, row.source);
      return true;
    }

    method RecordPoison(source: Source, rawPayload: seq<byte>, error: string) returns (inserted: bool)
      modifies this
      ensures View() == Poisoned(old(View()), source, rawPayload, error) && inserted == (source !in old(poison))
    {
      inserted := source !in poison;
      if inserted {
        poison := poison[source := PoisonRow(rawPayload, error)];
        InsertOutbox(DLQ, SourceKey(source), Hex(rawPayload), source);
      }
    }

    /**
       Unpublished rows only, as many as there are up to the limit; with ascending ids, in id order and
       before every unpublished row that is left out.
     */
    method FetchUnpublished(limit: nat) returns (rows: seq<OutboxRow>)
      ensures rows == Unpublished(outbox, limit) && |rows| == Min(limit, UnpublishedCount(outbox))
      ensures forall r | r in rows :: r in outbox && !r.published
      ensures Ascending(outbox) ==> ComesFirst(rows, outbox)
    {
      hide Ascending, UnpublishedCount, ComesFirst, Unpublished;
      UnpublishedRows(outbox, limit);
      if Ascending(outbox) {
        UnpublishedComesFirst(outbox, limit);
      }
      rows := [];
      var i := 0;
      assert outbox[0..] == outbox;
      while i < |outbox| && |rows| < limit
        invariant 0 <= i <= |outbox| && |rows| <= limit
        invariant rows + Unpublished(outbox[i..], limit - |rows|) == Unpublished(outbox, limit)
      {
        UnpublishedStep(outbox, i, limit - |rows|);
        if !outbox[i].published {
          rows := rows + [outbox[i]];
        }
        i := i + 1;
      }
      NothingToFetch(outbox[i..], limit - |rows|);
    }

    method MarkPublished(id: nat)
      modifies this`outbox
      ensures View() == Marked(old(View()), id)
    {
      outbox := MarkedRows(outbox, id);
    }

    method IsTerminal(id: string) returns (terminal: bool)
      ensures terminal <==> id in requests && Terminal(requests[id].state)
    {
      terminal := id in requests && Terminal(requests[id].state);
    }

    method IsSourcePublished(source: Source) returns (published: bool)
      ensures published <==> SourcePublished(View(), source)
    {
      published := false;
      for i := 0 to |outbox|
        invariant published <==> exists k | 0 <= k < i :: outbox[k].source == source
        invariant forall k | 0 <= k < i :: outbox[k].source == source ==> outbox[k].published
      {
        if outbox[i].source == source {
          if !outbox[i].published {
            return false;
          }
          published := true;
        }
      }
    }
  }
}
