/** Server-side ingest: the verdict on one submitted event and the deduplicating insert
    (backend/internal/telemetry/event.go, backend/internal/telemetry/store.go). */
module Telemetry {
  import opened Common

  const MAX_BATCH_SIZE := 500
  const MAX_METADATA_ENTRIES := 32
  const MAX_METADATA_KEY_LEN := 64
  const MAX_METADATA_VALUE_LEN := 512
  const MAX_EVENT_ID_LEN := 128
  /** 24 hours, in nanoseconds like every time below. */
  const MAX_CLOCK_DRIFT := 86_400_000_000_000
  const NANOS_PER_MILLI := 1_000_000

  const KNOWN_TYPES: set<string> := {
    "AUTH_LOGIN", "AUTH_LOGOUT", "DEVICE_ENROLLMENT", "DEVICE_POSTURE", "APPLICATION_START",
    "APPLICATION_ACCESS", "RESOURCE_ACCESS", "PRIVILEGE_CHANGE", "NETWORK_EVENT",
    "SECURITY_EVENT", "POLICY_DECISION", "RISK_UPDATE", "SECURITY_ALERT"}
  const KNOWN_SEVERITIES: set<string> := {"INFO", "LOW", "MEDIUM", "HIGH", "CRITICAL"}

  type DeviceId = nat

  /** One event as submitted. */
  datatype Inbound = Inbound(
    eventId: string, occurredAtMs: int, eventType: string, severity: string,
    metadata: map<string, string>)

  /** A row of the events table. `origin` is the submission it was made from; a claimed time that
      was replaced survives in `reportedOccurredAt` (the source keeps it in the metadata). */
  datatype Row = Row(
    deviceId: DeviceId,
    agentEventId: Option<string>,
    occurredAt: int,
    receivedAt: int,
    severity: string,
    reportedOccurredAt: Option<int>,
    origin: Inbound)

  datatype Verdict = Accepted(row: Row) | Refused

  predicate AcceptableEntry(key: string, value: string) {
    1 <= ByteLen(key) <= MAX_METADATA_KEY_LEN && ByteLen(value) <= MAX_METADATA_VALUE_LEN
  }

  function EffectiveSeverity(event: Inbound): string {
    if event.severity == "" then "INFO" else event.severity
  }

  /** The event alone decides whether it is accepted: neither the clock nor the device matters. */
  predicate Acceptable(event: Inbound) {
    && event.eventType in KNOWN_TYPES
    && EffectiveSeverity(event) in KNOWN_SEVERITIES
    && ByteLen(event.eventId) <= MAX_EVENT_ID_LEN
    && |event.metadata| <= MAX_METADATA_ENTRIES
    && forall key :: key in event.metadata ==> AcceptableEntry(key, event.metadata[key])
  }

  /** The time the endpoint claims, or the server's when it claims none. */
  function ClaimedTime(event: Inbound, now: int): int {
    if event.occurredAtMs > 0 then event.occurredAtMs * NANOS_PER_MILLI else now
  }

  predicate Plausible(claimed: int, now: int) {
    -MAX_CLOCK_DRIFT <= now - claimed <= MAX_CLOCK_DRIFT
  }

  /** The stored identifier: trimmed, and NULL when nothing is left. */
  function AgentEventId(event: Inbound): Option<string> {
    if TrimSpace(event.eventId) == "" then None else Some(TrimSpace(event.eventId))
  }

  function RowOf(event: Inbound, deviceId: DeviceId, now: int): Row {
    var claimed := ClaimedTime(event, now);
    Row(deviceId, AgentEventId(event),
        if Plausible(claimed, now) then claimed else now, now, EffectiveSeverity(event),
        if Plausible(claimed, now) then None else Some(claimed), event)
  }

  /** `Inbound.Normalize`. A stored time is always within the drift bound of the receipt time and
      the claim is never lost. */
  method Normalize(event: Inbound, deviceId: DeviceId, now: int) returns (verdict: Verdict)
    ensures verdict == if Acceptable(event) then Accepted(RowOf(event, deviceId, now)) else Refused
    ensures verdict.Refused? <==>
              || event.eventType !in KNOWN_TYPES
              || !(event.severity == "" || event.severity in KNOWN_SEVERITIES)
              || ByteLen(event.eventId) > 128 || |event.metadata| > 32
              || exists key :: key in event.metadata
                               && (key == "" || ByteLen(key) > 64 || ByteLen(event.metadata[key]) > 512)
    ensures verdict.Accepted? ==>
              var row, id := verdict.row, TrimSpace(event.eventId);
              && row.deviceId == deviceId && row.receivedAt == now && row.origin == event
              && row.agentEventId == (if id == "" then None else Some(id))
              && row.severity == (if event.severity == "" then "INFO" else event.severity)
              && -86_400_000_000_000 <= now - row.occurredAt <= 86_400_000_000_000
              && (row.reportedOccurredAt.None? ==>
                    row.occurredAt == if event.occurredAtMs > 0 then event.occurredAtMs * 1_000_000 else now)
              && (row.reportedOccurredAt.Some? ==>
                    && row.occurredAt == now && event.occurredAtMs > 0
                    && row.reportedOccurredAt.value == event.occurredAtMs * 1_000_000
                    && !(-86_400_000_000_000 <= now - row.reportedOccurredAt.value <= 86_400_000_000_000))
  {
    if event.eventType !in KNOWN_TYPES {
      return Refused;
    }
    var severity := event.severity;
    if severity == "" {
      severity := "INFO";
    }
    if severity !in KNOWN_SEVERITIES || ByteLen(event.eventId) > MAX_EVENT_ID_LEN
       || |event.metadata| > MAX_METADATA_ENTRIES {
      return Refused;
    }
    var remaining := event.metadata.Keys;
    while remaining != {}
      invariant remaining <= event.metadata.Keys
      invariant forall key :: key in event.metadata.Keys - remaining ==>
                                AcceptableEntry(key, event.metadata[key])
      decreases remaining
    {
      var key :| key in remaining;
      if ByteLen(key) == 0 || ByteLen(key) > MAX_METADATA_KEY_LEN
         || ByteLen(event.metadata[key]) > MAX_METADATA_VALUE_LEN {
        assert !AcceptableEntry(key, event.metadata[key]);
        return Refused;
      }
      remaining := remaining - {key};
    }
    var occurred := now;
    if event.occurredAtMs > 0 {
      occurred := event.occurredAtMs * NANOS_PER_MILLI;
    }
    var reported := None;
    var drift := now - occurred;
    if drift > MAX_CLOCK_DRIFT || drift < -MAX_CLOCK_DRIFT {
      reported := Some(occurred);
      occurred := now;
    }
    verdict := Accepted(Row(deviceId, AgentEventId(event), occurred, now, severity, reported, event));
  }

  predicate SameKey(a: Row, b: Row) {
    a.deviceId == b.deviceId && a.agentEventId.Some? && a.agentEventId == b.agentEventId
  }

  predicate Conflicts(table: seq<Row>, row: Row) {
    exists i :: 0 <= i < |table| && SameKey(table[i], row)
  }

  /** INSERT ... ON CONFLICT (device_id, agent_event_id) DO NOTHING. */
  function InsertRow(table: seq<Row>, row: Row): seq<Row> {
    if Conflicts(table, row) then table else table + [row]
  }

  function InsertAll(table: seq<Row>, rows: seq<Row>): seq<Row> {
    if rows == [] then table
    else InsertRow(InsertAll(table, rows[..|rows| - 1]), rows[|rows| - 1])
  }

  /** The rows a batch yields, refusals left out. */
  function RowsOf(batch: seq<Inbound>, deviceId: DeviceId, now: int): seq<Row> {
    if batch == [] then []
    else
      var init, last := batch[..|batch| - 1], batch[|batch| - 1];
      RowsOf(init, deviceId, now) + (if Acceptable(last) then [RowOf(last, deviceId, now)] else [])
  }

  /** No identified event is stored twice. */
  ghost predicate KeysUnique(table: seq<Row>) {
    forall i, j :: 0 <= i < j < |table| ==> !SameKey(table[i], table[j])
  }

  /** Ingest only appends, and keeps every identified event single. */
  lemma {:induction false} InsertAllPreserves(table: seq<Row>, rows: seq<Row>)
    ensures table <= InsertAll(table, rows)
    ensures KeysUnique(table) ==> KeysUnique(InsertAll(table, rows))
    ensures |InsertAll(table, rows)| <= |table| + |rows|
  {
    if rows != [] {
      InsertAllPreserves(table, rows[..|rows| - 1]);
    }
  }

  /** Afterwards every identified row is present under its key. */
  lemma {:induction false} InsertAllCovers(table: seq<Row>, rows: seq<Row>, i: nat)
    requires i < |rows| && rows[i].agentEventId.Some?
    ensures Conflicts(InsertAll(table, rows), rows[i])
  {
    var init := rows[..|rows| - 1];
    var before, after := InsertAll(table, init), InsertAll(table, rows);
    if i < |init| {
      InsertAllCovers(table, init, i);
      var k :| 0 <= k < |before| && SameKey(before[k], init[i]);
      assert SameKey(after[k], rows[i]);
    } else if !Conflicts(before, rows[i]) {
      assert SameKey(after[|before|], rows[i]);
    }
  }

  /** Every row in the result was there before or comes from the batch. */
  lemma {:induction false} InsertAllSource(table: seq<Row>, rows: seq<Row>, k: nat)
    requires k < |InsertAll(table, rows)|
    ensures InsertAll(table, rows)[k] in table || InsertAll(table, rows)[k] in rows
  {
    if rows != [] {
      var init := rows[..|rows| - 1];
      if k < |InsertAll(table, init)| {
        InsertAllSource(table, init, k);
      }
    }
  }

  /** Every row beyond the old table comes from the batch. */
  lemma {:induction false} InsertAllAdds(table: seq<Row>, rows: seq<Row>, k: nat)
    requires |table| <= k < |InsertAll(table, rows)|
    ensures InsertAll(table, rows)[k] in rows
  {
    var init := rows[..|rows| - 1];
    if k < |InsertAll(table, init)| {
      InsertAllAdds(table, init, k);
    }
  }

  /** Two submissions of one batch: same devices and identifiers, possibly other receipt times. */
  ghost predicate SameSubmission(a: seq<Row>, b: seq<Row>) {
    |a| == |b| && forall i :: 0 <= i < |a| ==>
      a[i].deviceId == b[i].deviceId && a[i].agentEventId == b[i].agentEventId
  }

  lemma {:induction false} AllConflictingInsertsNothing(table: seq<Row>, rows: seq<Row>)
    requires forall i :: 0 <= i < |rows| ==> Conflicts(table, rows[i])
    ensures InsertAll(table, rows) == table
  {
    if rows != [] {
      AllConflictingInsertsNothing(table, rows[..|rows| - 1]);
      assert Conflicts(table, rows[|rows| - 1]);
    }
  }

  lemma {:induction false} BlankIdentifierGrows(table: seq<Row>, rows: seq<Row>, i: nat)
    requires i < |rows| && rows[i].agentEventId.None?
    ensures |InsertAll(table, rows)| > |table|
  {
    var init := rows[..|rows| - 1];
    InsertAllPreserves(table, init);
    if i < |init| {
      BlankIdentifierGrows(table, init, i);
    } else {
      var before := InsertAll(table, init);
      assert !Conflicts(before, rows[i]);
    }
  }

  lemma RetriedRowsIff(table: seq<Row>, first: seq<Row>, again: seq<Row>)
    requires SameSubmission(first, again)
    ensures InsertAll(InsertAll(table, first), again) == InsertAll(table, first)
            <==> forall i :: 0 <= i < |again| ==> again[i].agentEventId.Some?
  {
    var stored := InsertAll(table, first);
    if i :| 0 <= i < |again| && again[i].agentEventId.None? {
      BlankIdentifierGrows(stored, again, i);
    } else {
      forall i | 0 <= i < |again| ensures Conflicts(stored, again[i]) {
        InsertAllCovers(table, first, i);
        var k :| 0 <= k < |stored| && SameKey(stored[k], first[i]);
        assert SameKey(stored[k], again[i]);
      }
      AllConflictingInsertsNothing(stored, again);
    }
  }

  /** One batch received twice yields the same devices and identifiers, row by row. */
  lemma {:induction false} RetryIsSameSubmission(batch: seq<Inbound>, deviceId: DeviceId, t1: int, t2: int)
    ensures SameSubmission(RowsOf(batch, deviceId, t1), RowsOf(batch, deviceId, t2))
  {
    if batch != [] {
      RetryIsSameSubmission(batch[..|batch| - 1], deviceId, t1, t2);
    }
  }

  lemma IdentifiedRowsIff(batch: seq<Inbound>, deviceId: DeviceId, now: int)
    ensures (forall i :: 0 <= i < |RowsOf(batch, deviceId, now)| ==> RowsOf(batch, deviceId, now)[i].agentEventId.Some?)
       <==> (forall e :: e in batch && Acceptable(e) ==> AgentEventId(e).Some?)
  {
    var rows := RowsOf(batch, deviceId, now);
    forall e | e in batch && Acceptable(e) ensures exists i :: 0 <= i < |rows| && rows[i] == RowOf(e, deviceId, now) {
      RowsOfIndex(batch, deviceId, now, e);
    }
    forall i | 0 <= i < |rows|
      ensures rows[i].origin in batch && Acceptable(rows[i].origin) && rows[i] == RowOf(rows[i].origin, deviceId, now)
    {
      RowsOfSource(batch, deviceId, now, rows[i]);
    }
  }

  /** A batch received again at any other time stores nothing new exactly when every event it gets
      accepted has a non-blank identifier; an event whose identifier trims to nothing is stored again
      on every retry. */
  lemma RetryIsIdempotentIff(table: seq<Row>, batch: seq<Inbound>, deviceId: DeviceId, t1: int, t2: int)
    ensures var once := InsertAll(table, RowsOf(batch, deviceId, t1));
            && (InsertAll(once, RowsOf(batch, deviceId, t2)) == once
                <==> forall e :: e in batch && Acceptable(e) ==> AgentEventId(e).Some?)
  {
    RetryIsSameSubmission(batch, deviceId, t1, t2);
    RetriedRowsIff(table, RowsOf(batch, deviceId, t1), RowsOf(batch, deviceId, t2));
    IdentifiedRowsIff(batch, deviceId, t2);
  }

  lemma {:induction false} RowsOfIndex(batch: seq<Inbound>, deviceId: DeviceId, now: int, event: Inbound)
    requires event in batch && Acceptable(event)
    ensures RowOf(event, deviceId, now) in RowsOf(batch, deviceId, now)
  {
    if event != batch[|batch| - 1] {
      assert event in batch[..|batch| - 1];
      RowsOfIndex(batch[..|batch| - 1], deviceId, now, event);
    }
  }

  lemma {:induction false} RowsOfSource(batch: seq<Inbound>, deviceId: DeviceId, now: int, row: Row)
    requires row in RowsOf(batch, deviceId, now)
    ensures row.origin in batch && Acceptable(row.origin) && row == RowOf(row.origin, deviceId, now)
  {
    var init := batch[..|batch| - 1];
    if row in RowsOf(init, deviceId, now) {
      RowsOfSource(init, deviceId, now, row);
    }
  }

  datatype Rejection = Rejection(eventId: string, index: nat)

  datatype IngestOutcome =
    | BatchTooLarge
    | StoreFailed
    | Ingested(accepted: nat, duplicates: nat, rejected: seq<Rejection>)

  /** The rejections of a batch, in order, each naming the event's index. */
  function RejectionsOf(batch: seq<Inbound>): seq<Rejection> {
    if batch == [] then []
    else
      var init, last := batch[..|batch| - 1], batch[|batch| - 1];
      RejectionsOf(init) + (if Acceptable(last) then [] else [Rejection(last.eventId, |init|)])
  }

  /** Every event of a batch becomes one row or one rejection, and the rejections are exactly the
      unacceptable events. */
  lemma {:induction false} BatchIsPartitioned(batch: seq<Inbound>, deviceId: DeviceId, now: int)
    ensures |RowsOf(batch, deviceId, now)| + |RejectionsOf(batch)| == |batch|
    ensures forall r :: r in RejectionsOf(batch) <==> Rejects(batch, r)
  {
    if batch != [] {
      var init, last := batch[..|batch| - 1], batch[|batch| - 1];
      BatchIsPartitioned(init, deviceId, now);
      forall r ensures r in RejectionsOf(batch) <==> Rejects(batch, r) {
        RejectsLast(init, last, r);
        assert batch == init + [last];
      }
    }
  }

  /** The rejection names an unacceptable event by its index and identifier. */
  predicate Rejects(batch: seq<Inbound>, r: Rejection) {
    r.index < |batch| && !Acceptable(batch[r.index]) && r.eventId == batch[r.index].eventId
  }

  lemma RejectsLast(init: seq<Inbound>, last: Inbound, r: Rejection)
    ensures Rejects(init + [last], r)
       <==> Rejects(init, r) || (!Acceptable(last) && r == Rejection(last.eventId, |init|))
  {
  }

  lemma ClassifyStep(batch: seq<Inbound>, i: nat, deviceId: DeviceId, now: int)
    requires i < |batch|
    ensures RowsOf(batch[..i + 1], deviceId, now)
         == RowsOf(batch[..i], deviceId, now) + (if Acceptable(batch[i]) then [RowOf(batch[i], deviceId, now)] else [])
    ensures RejectionsOf(batch[..i + 1])
         == RejectionsOf(batch[..i]) + (if Acceptable(batch[i]) then [] else [Rejection(batch[i].eventId, i)])
  {
    assert batch[..i + 1][..i] == batch[..i];
  }

  /** The first loop of `Ingest`: split a batch into rows to insert and rejections. */
  method Classify(deviceId: DeviceId, inbound: seq<Inbound>, now: int)
    returns (rows: seq<Row>, rejected: seq<Rejection>)
    ensures rows == RowsOf(inbound, deviceId, now) && rejected == RejectionsOf(inbound)
  {
    rows, rejected := [], [];
    for index := 0 to |inbound|
      invariant rows == RowsOf(inbound[..index], deviceId, now)
      invariant rejected == RejectionsOf(inbound[..index])
    {
      var verdict := Normalize(inbound[index], deviceId, now);
      ClassifyStep(inbound, index, deviceId, now);
      if verdict.Refused? {
        rejected := rejected + [Rejection(inbound[index].eventId, index)];
      } else {
        rows := rows + [verdict.row];
      }
    }
    assert inbound[..|inbound|] == inbound;
  }

  /** The events table. */
  class Store {
    var events: seq<Row>

    constructor ()
      ensures events == []
    {
      events := [];
    }

    /** One transaction: `commits` is the database's answer, and a failure leaves no trace. */
    method Insert(rows: seq<Row>, commits: bool) returns (inserted: Option<nat>)
      modifies this
      ensures commits ==> inserted == Some(|events| - |old(events)|)
                          && events == InsertAll(old(events), rows) && |events| - |old(events)| <= |rows|
      ensures !commits ==> inserted == None && events == old(events)
    {
      var snapshot := events;
      var count := 0;
      for i := 0 to |rows|
        invariant events == InsertAll(snapshot, rows[..i])
        invariant |events| == |snapshot| + count && count <= i
      {
        assert rows[..i + 1][..i] == rows[..i];
        if !Conflicts(events, rows[i]) {
          events := events + [rows[i]];
          count := count + 1;
        }
      }
      assert rows[..|rows|] == rows;
      if !commits {
        events := snapshot;
        return None;
      }
      inserted := Some(count);
    }

    method Ingest(deviceId: DeviceId, inbound: seq<Inbound>, now: int, commits: bool)
      returns (outcome: IngestOutcome)
      modifies this
      ensures outcome.BatchTooLarge? <==> |inbound| > MAX_BATCH_SIZE
      ensures !outcome.Ingested? ==> events == old(events)
      ensures outcome.Ingested? ==>
                && events == InsertAll(old(events), RowsOf(inbound, deviceId, now))
                && outcome.accepted == |events| - |old(events)|
                && outcome.accepted + outcome.duplicates + |outcome.rejected| == |inbound|
                && outcome.rejected == RejectionsOf(inbound)
      ensures commits && |inbound| <= MAX_BATCH_SIZE ==> outcome.Ingested?
    {
      if |inbound| > MAX_BATCH_SIZE {
        return BatchTooLarge;
      }
      var rows, rejected := Classify(deviceId, inbound, now);
      BatchIsPartitioned(inbound, deviceId, now);
      if |rows| == 0 {
        return Ingested(0, 0, rejected);
      }
      var inserted := Insert(rows, commits);
      if inserted.None? {
        return StoreFailed;
      }
      outcome := Ingested(inserted.value, |rows| - inserted.value, rejected);
    }
  }
}
