/** Telemetry delivery as a protocol between one agent and the server: the collect/drain/send arm
    of the agent loop (agent/netra-agent/src/main.rs), the bounded queue and the deduplicating
    ingest, over every interleaving of pushes, sends, late or repeated server processing, lost
    replies and a revocation. */
module Delivery {
  import opened Common
  import opened EventQueues
  import opened Telemetry

  /** `base`, `pushed`, `evicted`, `acked` and `abandoned` are history; the rest is real state. `base`
      is how many rows the table held when this run of the agent began; rows of earlier runs of the
      same device may be among them.
      `wire` holds every batch the server may still process, in sending order: a request can be
      processed late, after the agent gave up on it, and more than once. */
  datatype World = World(
    cap: Capacity, batchMax: nat, deviceId: DeviceId, enrolled: bool,
    queue: seq<Event>, dropped: nat, latched: bool,
    sending: Option<seq<Event>>, delivered: bool,
    wire: seq<seq<Event>>,
    table: seq<Row>, base: nat,
    pushed: seq<Event>, evicted: multiset<Event>, acked: multiset<Event>, abandoned: seq<Event>)

  datatype Step =
    | Push(event: Event)                                // a collector or the heartbeat tick
    | Latch                                             // heartbeat or posture answered 401 or 403
    | BeginSend                                         // drain a batch and post it
    | ServerIngest(request: nat, now: int, commits: bool)
    | ReplyOk
    | ReplyFailed                                       // timeout, lost reply, 5xx, unreadable body
    | ReplyUnauthorized                                 // perhaps after the batch was stored: a repeated POST
    | OthersIngest(rows: seq<Row>)                      // rows of other devices arrive

  function SubmissionOf(e: Event): Inbound {
    Inbound(e.eventId, e.occurredAtMs, e.eventType, e.severity, e.metadata)
  }

  function Submissions(batch: seq<Event>): (s: seq<Inbound>)
    ensures |s| == |batch|
  {
    seq(|batch|, i requires 0 <= i < |batch| => SubmissionOf(batch[i]))
  }

  function InFlight(w: World): seq<Event> {
    if w.sending.Some? then w.sending.value else []
  }

  function PushOne(queue: seq<Event>, e: Event, cap: Capacity): seq<Event> {
    if Oversized(e, cap) then queue else KeepNewest(queue + [e], cap)
  }

  /** The events a push throws away. */
  function Losses(queue: seq<Event>, e: Event, cap: Capacity): seq<Event> {
    if Oversized(e, cap) then [e]
    else
      KeepNewestIsLongestFittingSuffix(queue + [e], cap);
      (queue + [e])[..|queue| + 1 - |KeepNewest(queue + [e], cap)|]
  }

  function Identifier(e: Event): Option<string> {
    AgentEventId(SubmissionOf(e))
  }

  /** The agent's event identifiers are non-blank and never repeat, not even across restarts. */
  ghost predicate FreshIdentifier(w: World, e: Event) {
    && Identifier(e).Some?
    && (forall i :: 0 <= i < |w.pushed| ==> Identifier(w.pushed[i]) != Identifier(e))
    && NewTo(w.table, w.base, w.deviceId, e)
  }

  /** None of the first `base` rows is this device's row for the event. */
  ghost predicate NewTo(table: seq<Row>, base: nat, deviceId: DeviceId, e: Event) {
    forall i :: 0 <= i < base && i < |table| && table[i].deviceId == deviceId ==> table[i].agentEventId != Identifier(e)
  }

  /** The loop awaits its own reply, so it pushes and drains only when nothing is in flight. */
  ghost predicate Enabled(w: World, step: Step) {
    match step
    case Push(e) => w.sending.None? && FreshIdentifier(w, e)
    case Latch => w.sending.None? && w.enrolled
    case BeginSend => w.sending.None? && w.enrolled && !w.latched && w.queue != []
    case ServerIngest(request, _, _) => request < |w.wire|
    case ReplyOk => w.sending.Some? && w.delivered
    case ReplyFailed => w.sending.Some?
    case ReplyUnauthorized => w.sending.Some?
    case OthersIngest(rows) => forall i :: 0 <= i < |rows| ==> rows[i].deviceId != w.deviceId
  }

  function BatchSize(w: World): nat {
    if w.batchMax < |w.queue| then w.batchMax else |w.queue|
  }

  function AfterIngest(w: World, request: nat, now: int, commits: bool): World
    requires request < |w.wire|
  {
    var batch := w.wire[request];
    if !commits || |batch| > MAX_BATCH_SIZE then w
    else
      w.(table := InsertAll(w.table, RowsOf(Submissions(batch), w.deviceId, now)),
         delivered := w.delivered || request == |w.wire| - 1)
  }

  ghost function Next(w: World, step: Step): World
    requires Enabled(w, step)
  {
    match step
    case Push(e) =>
      w.(queue := PushOne(w.queue, e, w.cap), pushed := w.pushed + [e],
         dropped := w.dropped + |Losses(w.queue, e, w.cap)|,
         evicted := w.evicted + multiset(Losses(w.queue, e, w.cap)))
    case Latch => w.(latched := true)
    case BeginSend =>
      var batch := w.queue[..BatchSize(w)];
      w.(queue := w.queue[BatchSize(w)..], sending := Some(batch), delivered := false,
         wire := w.wire + [batch])
    case ServerIngest(request, now, commits) => AfterIngest(w, request, now, commits)
    case ReplyOk =>
      w.(sending := None, acked := w.acked + multiset(w.sending.value))
    case ReplyFailed =>
      w.(sending := None, queue := KeepOldest(DropOversized(w.sending.value, w.cap) + w.queue, w.cap))
    case ReplyUnauthorized =>
      w.(sending := None, latched := true, abandoned := w.abandoned + w.sending.value)
    case OthersIngest(rows) => w.(table := InsertAll(w.table, rows))
  }

  ghost predicate Initial(w: World) {
    && w.cap.maxEvents >= 1 && w.cap.maxBytes >= 1 && w.batchMax >= 1
    && w.queue == [] && w.dropped == 0 && !w.latched && w.sending.None? && !w.delivered && w.wire == []
    && w.pushed == [] && w.evicted == multiset{} && w.acked == multiset{} && w.abandoned == []
    && KeysUnique(w.table) && w.base == |w.table|
  }

  ghost predicate Runs(w: World, steps: seq<Step>)
    decreases |steps|, 0
  {
    steps == [] || (Runs(w, steps[..|steps| - 1]) && Enabled(Final(w, steps[..|steps| - 1]), steps[|steps| - 1]))
  }

  ghost function Final(w: World, steps: seq<Step>): World
    requires Runs(w, steps)
    decreases |steps|, 1
  {
    if steps == [] then w else Next(Final(w, steps[..|steps| - 1]), steps[|steps| - 1])
  }

  /** A run of two parts is a run of the first and then of the second. */
  lemma {:induction false} RunsSplit(w: World, a: seq<Step>, b: seq<Step>)
    requires Runs(w, a + b)
    ensures Runs(w, a) && Runs(Final(w, a), b) && Final(w, a + b) == Final(Final(w, a), b)
    decreases |b|
  {
    if b == [] {
      assert a + b == a;
    } else {
      assert (a + b)[..|a + b| - 1] == a + b[..|b| - 1];
      RunsSplit(w, a, b[..|b| - 1]);
    }
  }

  /* ----- order ----- */

  /** `a` can be read off `b` from left to right. */
  predicate InOrder(a: seq<Event>, b: seq<Event>)
    decreases |b|
  {
    if a == [] then true
    else if b == [] then false
    else if a[0] == b[0] then InOrder(a[1..], b[1..])
    else InOrder(a, b[1..])
  }

  lemma {:induction false} InOrderTail(a: seq<Event>, b: seq<Event>)
    requires InOrder(a, b) && a != []
    ensures InOrder(a[1..], b)
    decreases |b|, 1
  {
    if a[0] == b[0] {
      InOrderWeaken(a[1..], b);
    } else {
      InOrderTail(a, b[1..]);
      InOrderWeaken(a[1..], b);
    }
  }

  /** One more element in front of `b` never hurts. */
  lemma {:induction false} InOrderWeaken(a: seq<Event>, b: seq<Event>)
    requires b != [] && InOrder(a, b[1..])
    ensures InOrder(a, b)
    decreases |b|, 0
  {
    if a != [] && a[0] == b[0] {
      InOrderTail(a, b[1..]);
    }
  }

  lemma {:induction false} InOrderSuffix(a: seq<Event>, b: seq<Event>, k: nat)
    requires InOrder(a, b) && k <= |a|
    ensures InOrder(a[k..], b)
  {
    if k > 0 {
      InOrderSuffix(a, b, k - 1);
      InOrderTail(a[k - 1..], b);
      assert a[k - 1..][1..] == a[k..];
    }
  }

  lemma {:induction false} InOrderAppendBoth(a: seq<Event>, b: seq<Event>, e: Event)
    requires InOrder(a, b)
    ensures InOrder(a + [e], b + [e])
    decreases |b|
  {
    if a == [] {
      InOrderSingle(b, e);
      assert a + [e] == [e];
    } else {
      assert (b + [e])[1..] == b[1..] + [e];
      assert (a + [e])[1..] == a[1..] + [e];
      InOrderAppendBoth(if a[0] == b[0] then a[1..] else a, b[1..], e);
    }
  }

  lemma {:induction false} InOrderSingle(b: seq<Event>, e: Event)
    ensures InOrder([e], b + [e])
    decreases |b|
  {
    if b != [] {
      assert (b + [e])[1..] == b[1..] + [e];
      InOrderSingle(b[1..], e);
    }
  }

  lemma {:induction false} InOrderAppendRight(a: seq<Event>, b: seq<Event>, e: Event)
    requires InOrder(a, b)
    ensures InOrder(a, b + [e])
    decreases |b|
  {
    if a != [] {
      assert (b + [e])[1..] == b[1..] + [e];
      InOrderAppendRight(if a[0] == b[0] then a[1..] else a, b[1..], e);
    }
  }

  /* ----- the invariant ----- */

  ghost predicate DistinctIdentifiers(pushed: seq<Event>) {
    && (forall i :: 0 <= i < |pushed| ==> Identifier(pushed[i]).Some?)
    && (forall i, j :: 0 <= i < j < |pushed| ==> Identifier(pushed[i]) != Identifier(pushed[j]))
  }

  /** The event is among the rows added since the run began. */
  ghost predicate StoredRow(table: seq<Row>, base: nat, deviceId: DeviceId, e: Event) {
    exists i :: base <= i < |table| && table[i].deviceId == deviceId && table[i].origin == SubmissionOf(e)
  }

  /** The server has dealt with the event: stored it, or refused it for good. */
  ghost predicate Settled(table: seq<Row>, base: nat, deviceId: DeviceId, e: Event) {
    Acceptable(SubmissionOf(e)) ==> StoredRow(table, base, deviceId, e)
  }

  ghost predicate AllPushed(batch: seq<Event>, pushed: seq<Event>) {
    forall i :: 0 <= i < |batch| ==> batch[i] in pushed
  }

  /** Conservation: every pushed event is in exactly one of five places. */
  ghost predicate Conserved(w: World) {
    && multiset(w.pushed)
       == multiset(w.queue) + multiset(InFlight(w)) + w.evicted + w.acked + multiset(w.abandoned)
    && |w.evicted| == w.dropped
  }

  ghost predicate AgentInv(w: World) {
    && w.cap.maxEvents >= 1 && w.batchMax >= 1
    && Conserved(w)
    && Fits(InFlight(w) + w.queue, w.cap)
    && InOrder(InFlight(w) + w.queue, w.pushed)
    && |InFlight(w)| <= w.batchMax
    && |w.abandoned| <= w.batchMax
    && (w.sending.Some? ==> !w.latched)
    && (w.abandoned != [] ==> w.latched)
  }

  ghost predicate WirePushed(wire: seq<seq<Event>>, pushed: seq<Event>) {
    forall k :: 0 <= k < |wire| ==> AllPushed(wire[k], pushed)
  }

  ghost predicate WireInv(w: World) {
    && DistinctIdentifiers(w.pushed)
    && WirePushed(w.wire, w.pushed)
    && (w.sending.Some? ==> w.wire != [] && w.wire[|w.wire| - 1] == w.sending.value)
  }

  ghost predicate FromAgent(row: Row, pushed: seq<Event>) {
    exists e :: e in pushed && row.origin == SubmissionOf(e) && row.agentEventId == Identifier(e)
  }

  /** The rows this device added since the run began all come from its pushed events. */
  ghost predicate AddedFromAgent(table: seq<Row>, base: nat, deviceId: DeviceId, pushed: seq<Event>) {
    forall i :: base <= i < |table| && table[i].deviceId == deviceId ==> FromAgent(table[i], pushed)
  }

  ghost predicate AllNew(table: seq<Row>, base: nat, deviceId: DeviceId, pushed: seq<Event>) {
    forall e :: e in pushed ==> NewTo(table, base, deviceId, e)
  }

  ghost predicate AckedSettled(table: seq<Row>, base: nat, deviceId: DeviceId, acked: multiset<Event>) {
    forall e :: e in acked ==> Settled(table, base, deviceId, e)
  }

  ghost predicate BatchSettled(table: seq<Row>, base: nat, deviceId: DeviceId, batch: seq<Event>) {
    forall i :: 0 <= i < |batch| ==> Settled(table, base, deviceId, batch[i])
  }

  ghost predicate ServerInv(w: World) {
    && KeysUnique(w.table) && w.base <= |w.table|
    && AddedFromAgent(w.table, w.base, w.deviceId, w.pushed)
    && AllNew(w.table, w.base, w.deviceId, w.pushed)
    && AckedSettled(w.table, w.base, w.deviceId, w.acked)
    && (w.sending.Some? && w.delivered ==> BatchSettled(w.table, w.base, w.deviceId, w.sending.value))
  }

  ghost predicate Inv(w: World) {
    AgentInv(w) && WireInv(w) && ServerInv(w)
  }

  lemma InitialInv(w: World)
    requires Initial(w)
    ensures Inv(w)
  {
  }

  lemma MultisetSplit(s: seq<Event>, k: nat)
    requires k <= |s|
    ensures multiset(s) == multiset(s[..k]) + multiset(s[k..])
  {
    assert s == s[..k] + s[k..];
  }

  /** A push splits queue and event into what is kept and what is lost. */
  lemma PushConserves(queue: seq<Event>, pushed: seq<Event>, e: Event, cap: Capacity)
    requires cap.maxEvents >= 1 && Fits(queue, cap) && InOrder(queue, pushed)
    ensures Fits(PushOne(queue, e, cap), cap) && InOrder(PushOne(queue, e, cap), pushed + [e])
    ensures multiset(queue) + multiset{e} == multiset(PushOne(queue, e, cap)) + multiset(Losses(queue, e, cap))
  {
    if Oversized(e, cap) {
      InOrderAppendRight(queue, pushed, e);
    } else {
      var full := queue + [e];
      var k := |full| - |KeepNewest(full, cap)|;
      KeepNewestIsLongestFittingSuffix(full, cap);
      assert Fits(full[k..], cap);
      InOrderAppendBoth(queue, pushed, e);
      InOrderSuffix(full, pushed + [e], k);
      MultisetSplit(full, k);
      assert multiset(full) == multiset(queue) + multiset{e};
    }
  }

  lemma Rebalance(total: multiset<Event>, queue: multiset<Event>, rest: multiset<Event>, evicted: multiset<Event>,
                  event: multiset<Event>, kept: multiset<Event>, lost: multiset<Event>)
    requires total == queue + evicted + rest && queue + event == kept + lost
    ensures total + event == kept + (evicted + lost) + rest
  {
    forall e ensures (total + event)[e] == (kept + (evicted + lost) + rest)[e] {
      assert (queue + event)[e] == (kept + lost)[e];
    }
  }

  lemma PushAgentInv(w: World, e: Event)
    requires AgentInv(w) && Enabled(w, Push(e))
    ensures AgentInv(Next(w, Push(e)))
  {
    var w' := Next(w, Push(e));
    assert InFlight(w) + w.queue == w.queue && InFlight(w') + w'.queue == w'.queue;
    PushConserves(w.queue, w.pushed, e, w.cap);
    PushConserved(w, w', e);
  }

  lemma PushConserved(w: World, w': World, e: Event)
    requires Conserved(w) && InFlight(w) == [] && InFlight(w') == []
    requires w'.pushed == w.pushed + [e] && w'.acked == w.acked && w'.abandoned == w.abandoned
    requires w'.evicted == w.evicted + multiset(Losses(w.queue, e, w.cap))
    requires w'.dropped == w.dropped + |Losses(w.queue, e, w.cap)|
    requires multiset(w.queue) + multiset{e} == multiset(w'.queue) + multiset(Losses(w.queue, e, w.cap))
    ensures Conserved(w')
  {
    assert multiset(w'.pushed) == multiset(w.pushed) + multiset{e};
    Rebalance(multiset(w.pushed), multiset(w.queue), w.acked + multiset(w.abandoned), w.evicted,
              multiset{e}, multiset(w'.queue), multiset(Losses(w.queue, e, w.cap)));
    assert multiset(w'.queue) + multiset(InFlight(w')) + w'.evicted + w'.acked + multiset(w'.abandoned)
        == multiset(w'.queue) + w'.evicted + (w.acked + multiset(w.abandoned));
  }

  lemma BeginSendAgentInv(w: World)
    requires AgentInv(w) && Enabled(w, BeginSend)
    ensures AgentInv(Next(w, BeginSend))
  {
    var w' := Next(w, BeginSend);
    assert InFlight(w) + w.queue == w.queue && InFlight(w') + w'.queue == w.queue;
    MultisetSplit(w.queue, BatchSize(w));
  }

  /** A failed send puts back exactly what was taken, so it drops and reorders nothing. */
  lemma FailedSendRestoresQueue(w: World)
    requires AgentInv(w) && Enabled(w, ReplyFailed)
    ensures Next(w, ReplyFailed).queue == InFlight(w) + w.queue
  {
    var all := InFlight(w) + w.queue;
    assert all[..|InFlight(w)|] == InFlight(w) && all[|InFlight(w)|..] == w.queue;
    DrainThenRequeueIsIdentity(all, |InFlight(w)|, w.cap);
  }

  /** The queue without the batch in flight still fits, in order. */
  lemma QueueAlone(batch: seq<Event>, queue: seq<Event>, pushed: seq<Event>, cap: Capacity)
    requires Fits(batch + queue, cap) && InOrder(batch + queue, pushed)
    ensures Fits(queue, cap) && InOrder(queue, pushed)
  {
    FitsPart(batch, queue, cap);
    InOrderSuffix(batch + queue, pushed, |batch|);
    assert (batch + queue)[|batch|..] == queue;
  }

  lemma ReplyOkAgentInv(w: World)
    requires AgentInv(w) && Enabled(w, ReplyOk)
    ensures AgentInv(Next(w, ReplyOk))
  {
    var w' := Next(w, ReplyOk);
    QueueAlone(InFlight(w), w.queue, w.pushed, w.cap);
    assert InFlight(w') + w'.queue == w'.queue;
  }

  lemma ReplyFailedAgentInv(w: World)
    requires AgentInv(w) && Enabled(w, ReplyFailed)
    ensures AgentInv(Next(w, ReplyFailed))
  {
    var w' := Next(w, ReplyFailed);
    FailedSendRestoresQueue(w);
    assert InFlight(w') + w'.queue == w'.queue;
    assert multiset(w'.queue) == multiset(InFlight(w)) + multiset(w.queue);
  }

  lemma ReplyUnauthorizedAgentInv(w: World)
    requires AgentInv(w) && Enabled(w, ReplyUnauthorized)
    ensures AgentInv(Next(w, ReplyUnauthorized))
  {
    var w' := Next(w, ReplyUnauthorized);
    QueueAlone(InFlight(w), w.queue, w.pushed, w.cap);
    assert InFlight(w') + w'.queue == w'.queue;
    assert w.abandoned == [] && w'.abandoned == InFlight(w);
  }

  lemma AgentInvStep(w: World, step: Step)
    requires AgentInv(w) && Enabled(w, step)
    ensures AgentInv(Next(w, step))
  {
    match step
    case Push(e) => PushAgentInv(w, e);
    case BeginSend => BeginSendAgentInv(w);
    case ReplyOk => ReplyOkAgentInv(w);
    case ReplyFailed => ReplyFailedAgentInv(w);
    case ReplyUnauthorized => ReplyUnauthorizedAgentInv(w);
    case Latch =>
    case ServerIngest(_, _, _) =>
    case OthersIngest(_) =>
  }

  lemma {:induction false} InOrderMembers(a: seq<Event>, b: seq<Event>)
    requires InOrder(a, b)
    ensures AllPushed(a, b)
    decreases |b|
  {
    if a != [] {
      InOrderMembers(if a[0] == b[0] then a[1..] else a, b[1..]);
    }
  }

  lemma WireInvStep(w: World, step: Step)
    requires AgentInv(w) && WireInv(w) && Enabled(w, step)
    ensures WireInv(Next(w, step))
  {
    if step.BeginSend? {
      BeginSendWireInv(w);
    } else {
      OtherWireInv(w, step);
    }
  }

  lemma OtherWireInv(w: World, step: Step)
    requires WireInv(w) && Enabled(w, step) && !step.BeginSend?
    ensures WireInv(Next(w, step))
  {
    match step
    case Push(e) =>
      StillDistinct(w, e);
      StillPushed(w.wire, w.pushed, e);
    case _ =>
  }

  lemma BeginSendWireInv(w: World)
    requires AgentInv(w) && WireInv(w) && Enabled(w, BeginSend)
    ensures WireInv(Next(w, BeginSend))
  {
    assert InFlight(w) + w.queue == w.queue;
    InOrderMembers(w.queue, w.pushed);
    SomeOf(w.queue, BatchSize(w), w.pushed);
    MoreOnWire(w.wire, w.queue[..BatchSize(w)], w.pushed);
  }

  lemma SomeOf(queue: seq<Event>, n: nat, pushed: seq<Event>)
    requires n <= |queue| && AllPushed(queue, pushed)
    ensures AllPushed(queue[..n], pushed)
  {
    assert forall i :: 0 <= i < n ==> queue[..n][i] == queue[i];
  }

  lemma MoreOnWire(wire: seq<seq<Event>>, batch: seq<Event>, pushed: seq<Event>)
    requires WirePushed(wire, pushed) && AllPushed(batch, pushed)
    ensures WirePushed(wire + [batch], pushed)
  {
  }

  lemma StillPushed(wire: seq<seq<Event>>, pushed: seq<Event>, e: Event)
    requires WirePushed(wire, pushed)
    ensures WirePushed(wire, pushed + [e])
  {
    forall k | 0 <= k < |wire| ensures AllPushed(wire[k], pushed + [e]) {
      assert AllPushed(wire[k], pushed);
    }
  }

  lemma StillDistinct(w: World, e: Event)
    requires DistinctIdentifiers(w.pushed) && FreshIdentifier(w, e)
    ensures DistinctIdentifiers(w.pushed + [e])
  {
  }

  /** Two pushed events with one identifier are one event. */
  lemma SameIdentifierSameEvent(pushed: seq<Event>, a: Event, b: Event)
    requires DistinctIdentifiers(pushed) && a in pushed && b in pushed && Identifier(a) == Identifier(b)
    ensures a == b
  {
    var i :| 0 <= i < |pushed| && pushed[i] == a;
    var j :| 0 <= j < |pushed| && pushed[j] == b;
  }

  lemma IngestRowsFromAgent(w: World, request: nat, now: int, after: seq<Row>)
    requires WireInv(w) && ServerInv(w) && request < |w.wire|
    requires after == InsertAll(w.table, RowsOf(Submissions(w.wire[request]), w.deviceId, now)) && w.table <= after
    ensures AddedFromAgent(after, w.base, w.deviceId, w.pushed)
  {
    forall i | w.base <= i < |after| && after[i].deviceId == w.deviceId ensures FromAgent(after[i], w.pushed) {
      if i < |w.table| {
        assert after[i] == w.table[i];
      } else {
        IngestedRow(w, request, now, after, i);
      }
    }
  }

  lemma IngestedRow(w: World, request: nat, now: int, after: seq<Row>, i: nat)
    requires WireInv(w) && request < |w.wire| && |w.table| <= i < |after|
    requires after == InsertAll(w.table, RowsOf(Submissions(w.wire[request]), w.deviceId, now))
    ensures FromAgent(after[i], w.pushed)
  {
    var batch := w.wire[request];
    var rows := RowsOf(Submissions(batch), w.deviceId, now);
    InsertAllAdds(w.table, rows, i);
    RowsOfSource(Submissions(batch), w.deviceId, now, after[i]);
    var k :| 0 <= k < |batch| && Submissions(batch)[k] == after[i].origin;
    assert AllPushed(batch, w.pushed) && batch[k] in w.pushed;
  }

  /** The row found under the event's key is the event's own, added since the run began. */
  lemma KeyFindsEvent(table: seq<Row>, base: nat, deviceId: DeviceId, pushed: seq<Event>, e: Event, i: nat)
    requires DistinctIdentifiers(pushed) && e in pushed && i < |table|
    requires AddedFromAgent(table, base, deviceId, pushed) && NewTo(table, base, deviceId, e)
    requires table[i].deviceId == deviceId && table[i].agentEventId == Identifier(e)
    ensures StoredRow(table, base, deviceId, e)
  {
    assert i >= base;
    assert FromAgent(table[i], pushed);
    var other :| other in pushed && table[i].origin == SubmissionOf(other)
                 && table[i].agentEventId == Identifier(other);
    SameIdentifierSameEvent(pushed, other, e);
  }

  lemma IngestSettles(w: World, table': seq<Row>, request: nat, now: int, e: Event)
    requires WireInv(w) && request < |w.wire| && e in w.wire[request]
    requires table' == InsertAll(w.table, RowsOf(Submissions(w.wire[request]), w.deviceId, now))
    requires AddedFromAgent(table', w.base, w.deviceId, w.pushed) && AllNew(table', w.base, w.deviceId, w.pushed)
    ensures Settled(table', w.base, w.deviceId, e)
  {
    if Acceptable(SubmissionOf(e)) {
      var batch := w.wire[request];
      var rows := RowsOf(Submissions(batch), w.deviceId, now);
      var k :| 0 <= k < |batch| && batch[k] == e;
      assert Submissions(batch)[k] == SubmissionOf(e);
      RowsOfIndex(Submissions(batch), w.deviceId, now, SubmissionOf(e));
      var r :| 0 <= r < |rows| && rows[r] == RowOf(SubmissionOf(e), w.deviceId, now);
      assert AllPushed(batch, w.pushed) && e in w.pushed;
      assert Identifier(e).Some?;
      InsertAllCovers(w.table, rows, r);
      var i :| 0 <= i < |table'| && SameKey(table'[i], rows[r]);
      KeyFindsEvent(table', w.base, w.deviceId, w.pushed, e, i);
    }
  }

  lemma SettledStays(table: seq<Row>, table': seq<Row>, base: nat, deviceId: DeviceId, e: Event)
    requires table <= table' && Settled(table, base, deviceId, e)
    ensures Settled(table', base, deviceId, e)
  {
    if Acceptable(SubmissionOf(e)) {
      var i :| base <= i < |table| && table[i].deviceId == deviceId && table[i].origin == SubmissionOf(e);
      assert table'[i] == table[i];
    }
  }

  lemma ServerInvIngest(w: World, request: nat, now: int, commits: bool)
    requires WireInv(w) && ServerInv(w) && request < |w.wire|
    ensures ServerInv(AfterIngest(w, request, now, commits))
  {
    var w' := AfterIngest(w, request, now, commits);
    if w' != w {
      var rows := RowsOf(Submissions(w.wire[request]), w.deviceId, now);
      InsertAllPreserves(w.table, rows);
      IngestRowsFromAgent(w, request, now, w'.table);
      OldRowsStay(w.table, w'.table, w.base, w.deviceId, w.pushed);
      forall e | e in w'.acked ensures Settled(w'.table, w.base, w.deviceId, e) {
        SettledStays(w.table, w'.table, w.base, w.deviceId, e);
      }
      SendingSettled(w, w', request, now);
    }
  }

  lemma SendingSettled(w: World, w': World, request: nat, now: int)
    requires WireInv(w) && ServerInv(w) && request < |w.wire|
    requires w'.table == InsertAll(w.table, RowsOf(Submissions(w.wire[request]), w.deviceId, now))
             && w.table <= w'.table
    requires w' == w.(table := w'.table, delivered := w.delivered || request == |w.wire| - 1)
    requires AddedFromAgent(w'.table, w.base, w.deviceId, w.pushed) && AllNew(w'.table, w.base, w.deviceId, w.pushed)
    ensures w.sending.Some? && w'.delivered ==> BatchSettled(w'.table, w.base, w.deviceId, w.sending.value)
  {
    if w.sending.Some? && w'.delivered {
      forall i | 0 <= i < |w.sending.value| ensures Settled(w'.table, w.base, w.deviceId, w.sending.value[i]) {
        if w.delivered {
          SettledStays(w.table, w'.table, w.base, w.deviceId, w.sending.value[i]);
        } else {
          assert w.wire[request] == w.sending.value;
          IngestSettles(w, w'.table, request, now, w.sending.value[i]);
        }
      }
    }
  }

  lemma PushKeepsRows(w: World, e: Event)
    requires ServerInv(w) && FreshIdentifier(w, e)
    ensures AddedFromAgent(w.table, w.base, w.deviceId, w.pushed + [e])
    ensures AllNew(w.table, w.base, w.deviceId, w.pushed + [e])
  {
    forall i | w.base <= i < |w.table| && w.table[i].deviceId == w.deviceId
      ensures FromAgent(w.table[i], w.pushed + [e])
    {
      assert FromAgent(w.table[i], w.pushed);
      var o :| o in w.pushed && w.table[i].origin == SubmissionOf(o) && w.table[i].agentEventId == Identifier(o);
      assert o in w.pushed + [e];
    }
  }

  lemma ServerInvStep(w: World, step: Step)
    requires AgentInv(w) && WireInv(w) && ServerInv(w) && Enabled(w, step)
    ensures ServerInv(Next(w, step))
  {
    match step
    case ServerIngest(request, now, commits) => ServerInvIngest(w, request, now, commits);
    case Push(e) => PushKeepsRows(w, e);
    case OthersIngest(rows) => OthersKeepInv(w, rows);
    case _ =>
  }

  /** Rows of other devices settle nothing of ours and unsettle nothing. */
  lemma OthersKeepInv(w: World, rows: seq<Row>)
    requires ServerInv(w) && forall i :: 0 <= i < |rows| ==> rows[i].deviceId != w.deviceId
    ensures ServerInv(w.(table := InsertAll(w.table, rows)))
  {
    var after := InsertAll(w.table, rows);
    InsertAllPreserves(w.table, rows);
    OthersAddNothing(w.table, rows, w.base, w.deviceId, w.pushed);
    OldRowsStay(w.table, after, w.base, w.deviceId, w.pushed);
    OthersSettleNothing(w, after);
  }

  lemma OthersAddNothing(table: seq<Row>, rows: seq<Row>, base: nat, deviceId: DeviceId, pushed: seq<Event>)
    requires forall i :: 0 <= i < |rows| ==> rows[i].deviceId != deviceId
    requires AddedFromAgent(table, base, deviceId, pushed)
    ensures AddedFromAgent(InsertAll(table, rows), base, deviceId, pushed)
  {
    var after := InsertAll(table, rows);
    InsertAllPreserves(table, rows);
    forall i | base <= i < |after| && after[i].deviceId == deviceId ensures FromAgent(after[i], pushed) {
      if i >= |table| {
        InsertAllAdds(table, rows, i);
      }
      assert i < |table| && after[i] == table[i];
    }
  }

  lemma OldRowsStay(table: seq<Row>, after: seq<Row>, base: nat, deviceId: DeviceId, pushed: seq<Event>)
    requires table <= after && base <= |table| && AllNew(table, base, deviceId, pushed)
    ensures AllNew(after, base, deviceId, pushed)
  {
    forall e | e in pushed ensures NewTo(after, base, deviceId, e) {
      assert NewTo(table, base, deviceId, e);
    }
  }

  lemma OthersSettleNothing(w: World, after: seq<Row>)
    requires ServerInv(w) && w.table <= after
    ensures AckedSettled(after, w.base, w.deviceId, w.acked)
    ensures w.sending.Some? && w.delivered ==> BatchSettled(after, w.base, w.deviceId, w.sending.value)
  {
    forall e | Settled(w.table, w.base, w.deviceId, e) ensures Settled(after, w.base, w.deviceId, e) {
      SettledStays(w.table, after, w.base, w.deviceId, e);
    }
  }

  lemma InvStep(w: World, step: Step)
    requires Inv(w) && Enabled(w, step)
    ensures Inv(Next(w, step)) && w.table <= Next(w, step).table
    ensures Next(w, step).deviceId == w.deviceId && Next(w, step).base == w.base
  {
    AgentInvStep(w, step);
    WireInvStep(w, step);
    ServerInvStep(w, step);
    TableGrows(w, step);
  }

  lemma {:induction false} InvOverRuns(w: World, steps: seq<Step>)
    requires Inv(w) && Runs(w, steps)
    ensures Inv(Final(w, steps)) && Final(w, steps).deviceId == w.deviceId && Final(w, steps).base == w.base
    ensures w.table <= Final(w, steps).table
  {
    if steps != [] {
      InvOverRuns(w, steps[..|steps| - 1]);
      InvStep(Final(w, steps[..|steps| - 1]), steps[|steps| - 1]);
    }
  }

  lemma TableGrows(w: World, step: Step)
    requires Enabled(w, step)
    ensures w.table <= Next(w, step).table
  {
    if step.ServerIngest? {
      InsertAllPreserves(w.table, RowsOf(Submissions(w.wire[step.request]), w.deviceId, step.now));
    } else if step.OthersIngest? {
      InsertAllPreserves(w.table, step.rows);
    }
  }

  /** Where one pushed event can be at the end of a run. */
  ghost predicate Accounted(w: World, e: Event) {
    || e in w.queue || e in InFlight(w)
    || e in w.evicted
    || e in w.abandoned
    || StoredRow(w.table, w.base, w.deviceId, e)
    || !Acceptable(SubmissionOf(e))
  }

  /** Main theorem. Over every run, whatever the server held before: rows are only added and no
      identified event is ever stored twice; every event ever
      pushed is queued, in flight, evicted, in the one abandoned batch, stored, or refused by the
      server; `dropped_total` counts exactly the evicted ones; the queue stays in push order and
      within both bounds; and only a latched agent has abandoned anything, at most one batch. */
  lemma DeliveryIsAccountedFor(w0: World, steps: seq<Step>)
    requires Initial(w0) && Runs(w0, steps)
    ensures var w := Final(w0, steps);
            && (forall e :: e in w.pushed ==> Accounted(w, e))
            && w0.table <= w.table && KeysUnique(w.table)
            && (forall i, j :: |w0.table| <= i < j < |w.table|
                               && w.table[i].deviceId == w.table[j].deviceId == w.deviceId ==>
                  w.table[i].origin != w.table[j].origin)
            && Conserved(w)
            && InOrder(InFlight(w) + w.queue, w.pushed) && Fits(InFlight(w) + w.queue, w.cap)
            && (w.abandoned != [] ==> w.latched) && |w.abandoned| <= w.batchMax
  {
    InitialInv(w0);
    InvOverRuns(w0, steps);
    var w := Final(w0, steps);
    forall e | e in w.pushed ensures Accounted(w, e) {
      assert e in multiset(w.pushed);
      if e in w.acked {
        assert Settled(w.table, w.base, w.deviceId, e);
      }
    }
    forall i, j | |w0.table| <= i < j < |w.table| && w.table[i].deviceId == w.table[j].deviceId == w.deviceId
      ensures w.table[i].origin != w.table[j].origin
    {
      assert FromAgent(w.table[i], w.pushed) && FromAgent(w.table[j], w.pushed);
      assert !SameKey(w.table[i], w.table[j]);
    }
  }

  /* ----- the agent loop itself ----- */

  datatype SendOutcome = Delivered | Unauthorized | Failed

  function PushAll(queue: seq<Event>, events: seq<Event>, cap: Capacity): seq<Event> {
    if events == [] then queue
    else PushOne(PushAll(queue, events[..|events| - 1], cap), events[|events| - 1], cap)
  }

  /** The batch one tick sends: as much of the queue as fits a batch, or nothing. */
  function Batch(full: seq<Event>, sends: bool, batchMax: nat): seq<Event> {
    if sends then full[..Min(batchMax, |full|)] else []
  }

  /** What the tick leaves queued: everything after a failed send, otherwise all but the batch. */
  function LeftQueued(full: seq<Event>, sent: seq<Event>, outcome: SendOutcome): seq<Event>
    requires |sent| <= |full|
  {
    if outcome.Failed? then full else full[|sent|..]
  }

  class Agent {
    const queue: EventQueue
    const enrolled: bool
    const batchMax: nat
    var identityRejected: bool

    constructor (enrolled: bool, maxEvents: nat, maxBytes: nat, batchMax: nat)
      requires batchMax >= 1
      ensures fresh(queue) && queue.Valid() && queue.Contents() == [] && !identityRejected
      ensures this.enrolled == enrolled && this.batchMax == batchMax
    {
      queue := new EventQueue(maxEvents, maxBytes);
      this.enrolled, this.batchMax, identityRejected := enrolled, batchMax, false;
    }

    /** The collect tick. It pushes what was collected; an enrolled agent that is not latched and has
        something queued sends as much as fits a batch; a failed send leaves the queue as collection
        left it, any other removes exactly the sent batch; and only Unauthorized latches. */
    method CollectTick(collected: seq<Event>, outcome: SendOutcome) returns (sent: seq<Event>)
      requires queue.Valid() && batchMax >= 1
      modifies this, queue
      ensures queue.Valid()
      ensures var full := PushAll(old(queue.Contents()), collected, queue.cap);
              && sent == Batch(full, enrolled && !old(identityRejected) && full != [], batchMax)
              && |sent| <= |full| && queue.Contents() == LeftQueued(full, sent, outcome)
              && queue.droppedTotal + |full| == old(queue.droppedTotal + |queue.Contents()|) + |collected|
      ensures identityRejected == (old(identityRejected) || (sent != [] && outcome.Unauthorized?))
    {
      sent := [];
      for i := 0 to |collected|
        invariant queue.Valid() && identityRejected == old(identityRejected)
        invariant queue.Contents() == PushAll(old(queue.Contents()), collected[..i], queue.cap)
        invariant queue.droppedTotal + |queue.Contents()| == old(queue.droppedTotal + |queue.Contents()|) + i
      {
        assert collected[..i + 1][..i] == collected[..i];
        var _ := queue.Push(collected[i]);
      }
      assert collected[..|collected|] == collected;
      if !enrolled || identityRejected || |queue.items| == 0 {
        return;
      }
      ghost var full := queue.Contents();
      sent := queue.Drain(batchMax);
      assert full[..|sent|] == sent && full[|sent|..] == queue.Contents();
      match outcome
      case Delivered =>
      case Unauthorized => identityRejected := true;
      case Failed =>
        DrainThenRequeueIsIdentity(full, |sent|, queue.cap);
        queue.RequeueFront(sent);
    }
  }

  /* The tick is the protocol's steps. */

  function Collection(collected: seq<Event>): (steps: seq<Step>)
    ensures |steps| == |collected|
  {
    seq(|collected|, i requires 0 <= i < |collected| => Push(collected[i]))
  }

  function ReplyStep(outcome: SendOutcome): Step {
    match outcome
    case Delivered => ReplyOk
    case Unauthorized => ReplyUnauthorized
    case Failed => ReplyFailed
  }

  predicate ServerSide(steps: seq<Step>) {
    forall i :: 0 <= i < |steps| ==> steps[i].ServerIngest? || steps[i].OthersIngest?
  }

  predicate Sends(w: World, full: seq<Event>) {
    w.enrolled && !w.latched && full != []
  }

  /** Pushes, and if there is something to send, the send, whatever the server does meanwhile, and
      the reply. */
  function TickSteps(w: World, collected: seq<Event>, between: seq<Step>, outcome: SendOutcome): seq<Step> {
    Collection(collected)
    + (if Sends(w, PushAll(w.queue, collected, w.cap)) then [BeginSend] + between + [ReplyStep(outcome)] else [])
  }

  /** The parts of the world an agent is made of. */
  ghost predicate SameAgent(w: World, w': World) {
    && w'.cap == w.cap && w'.batchMax == w.batchMax && w'.enrolled == w.enrolled && w'.queue == w.queue
    && w'.dropped == w.dropped && w'.latched == w.latched && w'.sending == w.sending && w'.wire == w.wire
    && w'.pushed == w.pushed
  }

  /** Where pushing `collected` takes the agent. */
  ghost predicate AfterPushes(w: World, w': World, collected: seq<Event>) {
    && w'.queue == PushAll(w.queue, collected, w.cap) && w'.pushed == w.pushed + collected
    && w'.dropped + |w'.queue| == w.dropped + |w.queue| + |collected|
    && w'.cap == w.cap && w'.batchMax == w.batchMax && w'.enrolled == w.enrolled && w'.latched == w.latched
    && w'.sending == w.sending && w'.wire == w.wire
  }

  lemma LossesCount(queue: seq<Event>, e: Event, cap: Capacity)
    ensures |Losses(queue, e, cap)| + |PushOne(queue, e, cap)| == |queue| + 1
  {
    KeepNewestIsLongestFittingSuffix(queue + [e], cap);
  }

  lemma PushAllOneMore(queue: seq<Event>, init: seq<Event>, last: Event, cap: Capacity)
    ensures PushAll(queue, init + [last], cap) == PushOne(PushAll(queue, init, cap), last, cap)
  {
    assert (init + [last])[..|init|] == init;
  }

  lemma PushesStep(w: World, before: World, init: seq<Event>, last: Event)
    requires AfterPushes(w, before, init) && Enabled(before, Push(last))
    ensures AfterPushes(w, Next(before, Push(last)), init + [last])
  {
    LossesCount(before.queue, last, before.cap);
    PushAllOneMore(w.queue, init, last, w.cap);
    assert w.pushed + init + [last] == w.pushed + (init + [last]);
  }

  lemma {:induction false} CollectionRuns(w: World, collected: seq<Event>)
    requires AgentInv(w) && w.sending.None? && Runs(w, Collection(collected))
    ensures AgentInv(Final(w, Collection(collected))) && AfterPushes(w, Final(w, Collection(collected)), collected)
  {
    if collected == [] {
      assert w.pushed + collected == w.pushed;
    } else {
      var init, last := collected[..|collected| - 1], collected[|collected| - 1];
      assert Collection(collected)[..|collected| - 1] == Collection(init) && collected == init + [last];
      CollectionRuns(w, init);
      PushesStep(w, Final(w, Collection(init)), init, last);
      PushAgentInv(Final(w, Collection(init)), last);
    }
  }

  lemma ServerSideStep(w: World, step: Step)
    requires Enabled(w, step) && (step.ServerIngest? || step.OthersIngest?)
    ensures SameAgent(w, Next(w, step))
  {
  }

  lemma {:induction false} ServerSideRuns(w: World, steps: seq<Step>)
    requires AgentInv(w) && Runs(w, steps) && ServerSide(steps)
    ensures AgentInv(Final(w, steps)) && SameAgent(w, Final(w, steps))
  {
    if steps != [] {
      ServerSideRuns(w, steps[..|steps| - 1]);
      ServerSideStep(Final(w, steps[..|steps| - 1]), steps[|steps| - 1]);
      AgentInvStep(Final(w, steps[..|steps| - 1]), steps[|steps| - 1]);
    }
  }

  lemma RunsOne(w: World, step: Step)
    requires Runs(w, [step])
    ensures Enabled(w, step) && Final(w, [step]) == Next(w, step)
  {
    assert [step][..0] == [];
  }

  /** The agent while it waits for the reply to `sent`. */
  ghost predicate WaitingFor(w: World, w': World, sent: seq<Event>) {
    && w'.sending == Some(sent) && sent + w'.queue == w.queue && w'.wire == w.wire + [sent]
    && w'.latched == w.latched && w'.dropped == w.dropped && w'.pushed == w.pushed
  }

  lemma BeginSendStep(w: World, sent: seq<Event>)
    requires Enabled(w, BeginSend) && sent == w.queue[..Min(w.batchMax, |w.queue|)]
    ensures WaitingFor(w, Next(w, BeginSend), sent)
  {
    assert w.queue[..BatchSize(w)] + w.queue[BatchSize(w)..] == w.queue;
  }

  lemma ReplyEffect(w: World, waiting: World, sent: seq<Event>, outcome: SendOutcome)
    requires WaitingFor(w, waiting, sent) && AgentInv(waiting) && Enabled(waiting, ReplyStep(outcome))
    ensures |sent| <= |w.queue| && AfterSend(w, Next(waiting, ReplyStep(outcome)), sent, outcome)
  {
    assert w.queue[|sent|..] == waiting.queue;
    if outcome.Failed? {
      FailedSendRestoresQueue(waiting);
    }
  }

  /** Where sending `sent` takes the agent. */
  ghost predicate AfterSend(w: World, w': World, sent: seq<Event>, outcome: SendOutcome)
    requires |sent| <= |w.queue|
  {
    && w'.queue == LeftQueued(w.queue, sent, outcome) && w'.latched == (w.latched || outcome.Unauthorized?)
    && w'.wire == w.wire + [sent] && w'.sending.None? && w'.dropped == w.dropped && w'.pushed == w.pushed
  }

  lemma SendRuns(w: World, between: seq<Step>, outcome: SendOutcome)
    requires AgentInv(w) && Runs(w, [BeginSend] + between + [ReplyStep(outcome)]) && ServerSide(between)
    ensures AfterSend(w, Final(w, [BeginSend] + between + [ReplyStep(outcome)]),
                      w.queue[..Min(w.batchMax, |w.queue|)], outcome)
  {
    var sent := w.queue[..Min(w.batchMax, |w.queue|)];
    RunsSplit(w, [BeginSend] + between, [ReplyStep(outcome)]);
    RunsSplit(w, [BeginSend], between);
    RunsOne(w, BeginSend);
    BeginSendAgentInv(w);
    BeginSendStep(w, sent);
    ReplyRuns(w, Next(w, BeginSend), sent, between, outcome);
  }

  lemma ReplyRuns(w: World, sending: World, sent: seq<Event>, between: seq<Step>, outcome: SendOutcome)
    requires AgentInv(sending) && WaitingFor(w, sending, sent) && ServerSide(between) && Runs(sending, between)
    requires Runs(Final(sending, between), [ReplyStep(outcome)])
    ensures |sent| <= |w.queue|
    ensures AfterSend(w, Final(Final(sending, between), [ReplyStep(outcome)]), sent, outcome)
  {
    ServerSideRuns(sending, between);
    RunsOne(Final(sending, between), ReplyStep(outcome));
    ReplyEffect(w, Final(sending, between), sent, outcome);
  }

  /** One tick of the agent is a run of the protocol: the same queue, latch and drop count, the same
      batch on the wire, whatever the server does between sending and reply. */
  lemma TickIsProtocol(w: World, collected: seq<Event>, between: seq<Step>, outcome: SendOutcome)
    requires AgentInv(w) && w.sending.None? && ServerSide(between) && Runs(w, TickSteps(w, collected, between, outcome))
    ensures var w' := Final(w, TickSteps(w, collected, between, outcome));
            var full := PushAll(w.queue, collected, w.cap);
            var sent := Batch(full, Sends(w, full), w.batchMax);
            && w'.queue == (if sent == [] then full else LeftQueued(full, sent, outcome))
            && w'.latched == (w.latched || (sent != [] && outcome.Unauthorized?))
            && w'.wire == (if sent == [] then w.wire else w.wire + [sent])
            && w'.sending.None? && w'.pushed == w.pushed + collected
            && w'.dropped + |full| == w.dropped + |w.queue| + |collected|
  {
    var full := PushAll(w.queue, collected, w.cap);
    var send := if Sends(w, full) then [BeginSend] + between + [ReplyStep(outcome)] else [];
    RunsSplit(w, Collection(collected), send);
    CollectionRuns(w, collected);
    if Sends(w, full) {
      SendRuns(Final(w, Collection(collected)), between, outcome);
    }
  }
}
