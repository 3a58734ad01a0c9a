/** Device request authentication and its replay protection
    (backend/internal/device/middleware.go, backend/internal/device/store.go,
    backend/internal/device/signing.go, backend/cmd/netrad/main.go).

    The middleware checks the headers and the clock skew, then reads the body, then looks up the
    device and verifies the signature, and consumes the nonce last. Other requests, enrollments,
    revocations and pruning may happen between any two of these. Times are nanoseconds. */
module Replay {
  import opened Common

  /** Five minutes. */
  const MAX_CLOCK_SKEW := 300_000_000_000
  const NONCE_MIN_LENGTH := 16
  const NONCE_MAX_LENGTH := 128

  type DeviceId = nat
  type PublicKey = seq<int>

  datatype DeviceState = Pending | Active | Revoked

  datatype Device = Device(id: DeviceId, publicKey: PublicKey, state: DeviceState)

  /** The parts of a signed request; `signature` covers all the others. */
  datatype Request = Request(
    deviceUid: string, method': string, path: string, timestamp: int, nonce: string,
    body: seq<int>, signature: string)

  /** Ed25519 verification of a signature over the request's canonical string. */
  type Verifier = (PublicKey, Request) -> bool

  /* ----- the pure checks ----- */

  predicate NonceChar(c: char) {
    '0' <= c <= '9' || 'a' <= c <= 'f' || 'A' <= c <= 'F' || c == '-'
  }

  predicate ValidNonce(nonce: string) {
    && NONCE_MIN_LENGTH <= |nonce| <= NONCE_MAX_LENGTH
    && forall i :: 0 <= i < |nonce| ==> NonceChar(nonce[i])
  }

  method ValidateNonce(nonce: string) returns (ok: bool)
    ensures ok <==> ValidNonce(nonce)
  {
    if |nonce| < NONCE_MIN_LENGTH || |nonce| > NONCE_MAX_LENGTH {
      return false;
    }
    for i := 0 to |nonce|
      invariant forall j :: 0 <= j < i ==> NonceChar(nonce[j])
    {
      if !NonceChar(nonce[i]) {
        return false;
      }
    }
    return true;
  }

  function Drift(timestamp: int, now: int): nat {
    if now < timestamp then timestamp - now else now - timestamp
  }

  predicate WithinSkew(timestamp: int, now: int) {
    Drift(timestamp, now) <= MAX_CLOCK_SKEW
  }

  /** The checks on the headers alone, made before the body is read. */
  predicate Timely(req: Request, now: int) {
    && req.deviceUid != "" && req.signature != ""
    && ValidNonce(req.nonce)
    && WithinSkew(req.timestamp, now)
  }

  /** The checks against the devices table, made once the body has arrived. */
  predicate Identifies(req: Request, devices: map<string, Device>, verify: Verifier) {
    && req.deviceUid in devices
    && devices[req.deviceUid].state == Active
    && verify(devices[req.deviceUid].publicKey, req)
  }

  /* ----- the store ----- */

  type NonceKey = (DeviceId, string)

  function Pruned(seen: map<NonceKey, int>, before: int): map<NonceKey, int> {
    map key | key in seen && !(seen[key] < before) :: seen[key]
  }

  class Store {
    var devices: map<string, Device>
    var replayNonces: map<NonceKey, int>

    constructor ()
      ensures devices == map[] && replayNonces == map[]
    {
      devices, replayNonces := map[], map[];
    }

    /** Insert under the primary key (device, nonce); a conflict is a replay. */
    method ConsumeNonce(deviceId: DeviceId, nonce: string, seenAt: int) returns (fresh': bool)
      modifies this`replayNonces
      ensures fresh' <==> (deviceId, nonce) !in old(replayNonces)
      ensures replayNonces == if fresh' then old(replayNonces)[(deviceId, nonce) := seenAt] else old(replayNonces)
    {
      if (deviceId, nonce) in replayNonces {
        return false;
      }
      replayNonces := replayNonces[(deviceId, nonce) := seenAt];
      return true;
    }

    method PruneNonces(before: int) returns (removed: nat)
      modifies this`replayNonces
      ensures replayNonces == Pruned(old(replayNonces), before)
      ensures forall key :: key in replayNonces <==> key in old(replayNonces) && old(replayNonces)[key] >= before
      ensures forall key :: key in replayNonces ==> replayNonces[key] == old(replayNonces)[key]
      ensures removed == |old(replayNonces)| - |replayNonces|
    {
      var kept := Pruned(replayNonces, before);
      var dropped := set key | key in replayNonces && replayNonces[key] < before;
      assert replayNonces.Keys == kept.Keys + dropped && kept.Keys !! dropped;
      removed := |dropped|;
      replayNonces := kept;
    }

    /** Revoking is one-way and reports whether there was anything to revoke. */
    method Revoke(uid: string) returns (ok: bool)
      modifies this`devices
      ensures ok <==> uid in old(devices) && old(devices)[uid].state != Revoked
      ensures devices == if ok then old(devices)[uid := old(devices)[uid].(state := Revoked)] else old(devices)
    {
      if uid !in devices || devices[uid].state == Revoked {
        return false;
      }
      devices := devices[uid := devices[uid].(state := Revoked)];
      return true;
    }

    /** `RequireDeviceSignature` up to the reading of the body. It touches no table. */
    method Receive(req: Request, now: int) returns (ok: bool)
      ensures ok <==> Timely(req, now)
    {
      if req.deviceUid == "" || req.nonce == "" || req.signature == "" {
        return false;
      }
      var wellFormed := ValidateNonce(req.nonce);
      return wellFormed && WithinSkew(req.timestamp, now);
    }

    /** `RequireDeviceSignature` from there on, against the tables as they are by then. The nonce is
        consumed last, so a request that fails any check leaves them alone. */
    method Complete(req: Request, verify: Verifier) returns (accepted: bool)
      modifies this`replayNonces
      ensures accepted <==> Identifies(req, devices, verify)
                            && (devices[req.deviceUid].id, req.nonce) !in old(replayNonces)
      ensures !accepted ==> replayNonces == old(replayNonces)
      ensures accepted ==>
                replayNonces == old(replayNonces)[(devices[req.deviceUid].id, req.nonce) := req.timestamp]
    {
      if req.deviceUid !in devices {
        return false;
      }
      var enrolled := devices[req.deviceUid];
      if enrolled.state != Active {
        return false;
      }
      if !verify(enrolled.publicKey, req) {
        return false;
      }
      accepted := ConsumeNonce(enrolled.id, req.nonce, req.timestamp);
    }

    /** Both halves without anything in between. */
    method Authenticate(req: Request, now: int, verify: Verifier) returns (accepted: bool)
      modifies this`replayNonces
      ensures accepted <==> Timely(req, now) && Identifies(req, devices, verify)
                            && (devices[req.deviceUid].id, req.nonce) !in old(replayNonces)
      ensures !accepted ==> replayNonces == old(replayNonces)
      ensures accepted ==>
                replayNonces == old(replayNonces)[(devices[req.deviceUid].id, req.nonce) := req.timestamp]
    {
      accepted := Receive(req, now);
      if accepted {
        accepted := Complete(req, verify);
      }
    }

    /** One tick of the pruner: the cutoff lies two skew windows back. */
    method PrunerTick(now: int) returns (removed: nat)
      modifies this`replayNonces
      ensures replayNonces == Pruned(old(replayNonces), now - 600_000_000_000)
      ensures removed == |old(replayNonces)| - |replayNonces|
    {
      removed := PruneNonces(now - 2 * MAX_CLOCK_SKEW);
    }
  }

  /* ----- every interleaving ----- */

  /** An accepted request: the device it counted against and the time of its skew check. */
  datatype Ticket = Ticket(deviceId: DeviceId, request: Request, checkedAt: int)

  /** A request being handled: its body still arriving, or its device known and its nonce not yet
      consumed. */
  datatype Handling =
    | Arriving(request: Request, checkedAt: int)
    | Identified(ticket: Ticket)

  type ConnectionId = nat

  datatype System = System(
    now: int, devices: map<string, Device>, seen: map<NonceKey, int>,
    handling: map<ConnectionId, Handling>, accepted: seq<Ticket>)

  datatype Step =
    | Tick(to: int)
    | Receive(conn: ConnectionId, request: Request)    // headers and skew pass
    | Identify(conn: ConnectionId)                     // body read, device and signature pass
    | Consume(conn: ConnectionId)
    | Abandon(conn: ConnectionId)                      // any refusal, or the client went away
    | Prune(computedAt: int)                           // the cutoff may have been computed earlier
    | Enroll(uid: string, device: Device)
    | RevokeDevice(uid: string)

  function CheckedAt(h: Handling): int {
    if h.Arriving? then h.checkedAt else h.ticket.checkedAt
  }

  function RequestOf(h: Handling): Request {
    if h.Arriving? then h.request else h.ticket.request
  }

  /** `gap` bounds the time from a request's skew check to its nonce insert. */
  predicate Enabled(s: System, step: Step, gap: int, verify: Verifier) {
    match step
    case Tick(to) => s.now <= to
    case Receive(conn, request) => conn !in s.handling && Timely(request, s.now)
    case Identify(conn) =>
      conn in s.handling && s.handling[conn].Arriving? && Identifies(s.handling[conn].request, s.devices, verify)
    case Consume(conn) =>
      conn in s.handling && s.handling[conn].Identified? && s.now - CheckedAt(s.handling[conn]) <= gap
    case Abandon(conn) => conn in s.handling
    case Prune(computedAt) => computedAt <= s.now
    case Enroll(uid, _) => uid !in s.devices
    case RevokeDevice(uid) => uid in s.devices
  }

  function Insert(s: System, conn: ConnectionId, t: Ticket): System {
    var key := (t.deviceId, t.request.nonce);
    if key in s.seen then s.(handling := s.handling - {conn})
    else s.(handling := s.handling - {conn}, seen := s.seen[key := t.request.timestamp], accepted := s.accepted + [t])
  }

  function Next(s: System, step: Step): System {
    match step
    case Tick(to) => s.(now := to)
    case Receive(conn, request) => s.(handling := s.handling[conn := Arriving(request, s.now)])
    case Identify(conn) =>
      if conn in s.handling && RequestOf(s.handling[conn]).deviceUid in s.devices
      then
        var h := s.handling[conn];
        s.(handling := s.handling[conn :=
            Identified(Ticket(s.devices[RequestOf(h).deviceUid].id, RequestOf(h), CheckedAt(h)))])
      else s
    case Consume(conn) =>
      if conn in s.handling && s.handling[conn].Identified? then Insert(s, conn, s.handling[conn].ticket) else s
    case Abandon(conn) => s.(handling := s.handling - {conn})
    case Prune(computedAt) => s.(seen := Pruned(s.seen, computedAt - 2 * MAX_CLOCK_SKEW))
    case Enroll(uid, device) => s.(devices := s.devices[uid := device])
    case RevokeDevice(uid) =>
      if uid in s.devices then s.(devices := s.devices[uid := s.devices[uid].(state := Revoked)]) else s
  }

  function Final(s: System, steps: seq<Step>): System {
    if steps == [] then s else Next(Final(s, steps[..|steps| - 1]), steps[|steps| - 1])
  }

  ghost predicate Runs(s: System, steps: seq<Step>, gap: int, verify: Verifier) {
    steps == []
    || (Runs(s, steps[..|steps| - 1], gap, verify)
        && Enabled(Final(s, steps[..|steps| - 1]), steps[|steps| - 1], gap, verify))
  }

  lemma RunsAppend(s: System, steps: seq<Step>, step: Step, gap: int, verify: Verifier)
    requires Runs(s, steps, gap, verify) && Enabled(Final(s, steps), step, gap, verify)
    ensures Runs(s, steps + [step], gap, verify) && Final(s, steps + [step]) == Next(Final(s, steps), step)
  {
    assert (steps + [step])[..|steps|] == steps;
  }

  lemma TakeNext(done: seq<Step>, steps: seq<Step>, k: nat)
    requires 0 < k <= |steps|
    ensures done + steps[..k] == done + steps[..k - 1] + [steps[k - 1]]
  {
  }

  predicate Initial(s: System) {
    s.seen == map[] && s.handling == map[] && s.accepted == []
  }

  /** One signed request: device, timestamp and nonce. */
  predicate SameRequest(a: Ticket, b: Ticket) {
    a.deviceId == b.deviceId && a.request.timestamp == b.request.timestamp && a.request.nonce == b.request.nonce
  }

  ghost predicate AcceptedOnce(s: System) {
    forall i, j :: 0 <= i < j < |s.accepted| ==> !SameRequest(s.accepted[i], s.accepted[j])
  }

  /** An accepted request is remembered, or so old that no later check of it can still be in time. */
  ghost predicate Guarded(s: System, t: Ticket) {
    var key := (t.deviceId, t.request.nonce);
    || (key in s.seen && s.seen[key] == t.request.timestamp)
    || t.request.timestamp < s.now - 2 * MAX_CLOCK_SKEW
  }

  /** A request in progress had a timely skew check, not in the future. */
  ghost predicate InTime(h: Handling, now: int) {
    WithinSkew(RequestOf(h).timestamp, CheckedAt(h)) && CheckedAt(h) <= now
  }

  ghost predicate Inv(s: System) {
    && AcceptedOnce(s)
    && (forall i :: 0 <= i < |s.accepted| ==> Guarded(s, s.accepted[i]))
    && (forall c :: c in s.handling ==> InTime(s.handling[c], s.now))
  }

  lemma InvStep(s: System, step: Step, verify: Verifier)
    requires Inv(s) && Enabled(s, step, MAX_CLOCK_SKEW, verify)
    ensures Inv(Next(s, step))
  {
    if step.Consume? {
      InsertInv(s, step.conn, s.handling[step.conn].ticket);
    } else {
      var s' := Next(s, step);
      forall i | 0 <= i < |s'.accepted| ensures Guarded(s', s'.accepted[i]) {
        assert Guarded(s, s.accepted[i]);
      }
      HandlingStays(s, step, verify);
    }
  }

  lemma HandlingStays(s: System, step: Step, verify: Verifier)
    requires Enabled(s, step, MAX_CLOCK_SKEW, verify) && !step.Consume?
    requires forall c :: c in s.handling ==> InTime(s.handling[c], s.now)
    ensures forall c :: c in Next(s, step).handling ==> InTime(Next(s, step).handling[c], Next(s, step).now)
  {
  }

  lemma InsertInv(s: System, conn: ConnectionId, t: Ticket)
    requires Inv(s) && conn in s.handling && s.handling[conn] == Identified(t)
    requires s.now - t.checkedAt <= MAX_CLOCK_SKEW
    ensures Inv(Insert(s, conn, t))
  {
    var s' := Insert(s, conn, t);
    assert InTime(s.handling[conn], s.now);
    forall i | 0 <= i < |s.accepted|
      ensures Guarded(s', s.accepted[i])
              && ((t.deviceId, t.request.nonce) !in s.seen ==> !SameRequest(s.accepted[i], t))
    {
      assert Guarded(s, s.accepted[i]);
    }
  }

  lemma {:induction false} InvOverRuns(s: System, steps: seq<Step>, verify: Verifier)
    requires Inv(s) && Runs(s, steps, MAX_CLOCK_SKEW, verify)
    ensures Inv(Final(s, steps))
  {
    if steps != [] {
      InvOverRuns(s, steps[..|steps| - 1], verify);
      InvStep(Final(s, steps[..|steps| - 1]), steps[|steps| - 1], verify);
    }
  }

  lemma {:induction false} RunsWiden(s: System, steps: seq<Step>, gap: int, wider: int, verify: Verifier)
    requires Runs(s, steps, gap, verify) && gap <= wider
    ensures Runs(s, steps, wider, verify)
  {
    if steps != [] {
      RunsWiden(s, steps[..|steps| - 1], gap, wider, verify);
    }
  }

  /** Safety over all runs with the given gap. */
  ghost predicate SafeWithGap(gap: int) {
    forall s, steps, verify :: Initial(s) && Runs(s, steps, gap, verify) ==> AcceptedOnce(Final(s, steps))
  }

  /* A run that replays a request when the gap is larger. */

  const AGENT_UID := "netra-agent-0001"
  const REPLAYED := Request(AGENT_UID, "POST", "/api/v1/agent/events", 0, "0123456789abcdef", [], "sig")
  const AGENT := Device(1, [], Active)
  const ENROLLED := System(0, map[AGENT_UID := AGENT], map[], map[], [])
  const NONCE_KEY: NonceKey := (1, REPLAYED.nonce)

  const AnySignature: Verifier := (_, _) => true

  /** Accept at time 0. */
  const FirstUse := [Receive(1, REPLAYED), Identify(1), Consume(1)]

  /** Let a copy pass the skew check at the last moment, wait one tick longer than the slack, prune,
      and let the copy consume the nonce again. */
  const SecondUse :=
    [Tick(MAX_CLOCK_SKEW), Receive(2, REPLAYED), Identify(2), Tick(2 * MAX_CLOCK_SKEW + 1),
     Prune(2 * MAX_CLOCK_SKEW + 1), Consume(2)]

  const AfterFirstUse :=
    System(0, map[AGENT_UID := AGENT], map[NONCE_KEY := 0], map[], [Ticket(1, REPLAYED, 0)])

  /** The system after the first `k` steps of it. */
  function FirstState(k: nat): System {
    if k == 0 then ENROLLED
    else if k == 1 then ENROLLED.(handling := map[1 := Arriving(REPLAYED, 0)])
    else if k == 2 then ENROLLED.(handling := map[1 := Identified(Ticket(1, REPLAYED, 0))])
    else AfterFirstUse
  }

  lemma FirstUseStep(k: nat, gap: int)
    requires k < 3 && gap >= 0
    ensures Enabled(FirstState(k), FirstUse[k], gap, AnySignature)
    ensures Next(FirstState(k), FirstUse[k]) == FirstState(k + 1)
  {
    assert k == 2 ==> FirstState(k).handling - {1} == map[];
  }

  lemma {:induction false} FirstUseRuns(k: nat, gap: int)
    requires k <= 3 && gap >= 0
    ensures Runs(ENROLLED, FirstUse[..k], gap, AnySignature) && Final(ENROLLED, FirstUse[..k]) == FirstState(k)
  {
    if k > 0 {
      FirstUseRuns(k - 1, gap);
      FirstUseStep(k - 1, gap);
      RunsAppend(ENROLLED, FirstUse[..k - 1], FirstUse[k - 1], gap, AnySignature);
      TakeNext([], FirstUse, k);
      assert [] + FirstUse[..k - 1] == FirstUse[..k - 1] && [] + FirstUse[..k] == FirstUse[..k];
    }
  }

  /** The system after the first `k` steps of the second use. */
  function SecondState(k: nat): System {
    var arriving := map[2 := Arriving(REPLAYED, MAX_CLOCK_SKEW)];
    var identified := map[2 := Identified(Ticket(1, REPLAYED, MAX_CLOCK_SKEW))];
    var s := AfterFirstUse;
    if k == 0 then s
    else if k == 1 then s.(now := MAX_CLOCK_SKEW)
    else if k == 2 then s.(now := MAX_CLOCK_SKEW, handling := arriving)
    else if k == 3 then s.(now := MAX_CLOCK_SKEW, handling := identified)
    else if k == 4 then s.(now := 2 * MAX_CLOCK_SKEW + 1, handling := identified)
    else if k == 5 then s.(now := 2 * MAX_CLOCK_SKEW + 1, handling := identified, seen := map[])
    else s.(now := 2 * MAX_CLOCK_SKEW + 1, accepted := [Ticket(1, REPLAYED, 0), Ticket(1, REPLAYED, MAX_CLOCK_SKEW)])
  }

  lemma SecondUseReceived(k: nat, gap: int)
    requires k < 3 && gap > MAX_CLOCK_SKEW
    ensures Enabled(SecondState(k), SecondUse[k], gap, AnySignature)
    ensures Next(SecondState(k), SecondUse[k]) == SecondState(k + 1)
  {
  }

  lemma SecondUsePruned(k: nat, gap: int)
    requires 3 <= k < 6 && gap > MAX_CLOCK_SKEW
    ensures Enabled(SecondState(k), SecondUse[k], gap, AnySignature)
    ensures Next(SecondState(k), SecondUse[k]) == SecondState(k + 1)
  {
    assert k == 4 ==> Pruned(SecondState(k).seen, 1) == map[];
    assert k == 5 ==> SecondState(k).handling - {2} == map[];
  }

  lemma {:induction false} SecondUseRuns(k: nat, gap: int)
    requires k <= 6 && gap > MAX_CLOCK_SKEW
    ensures Runs(ENROLLED, FirstUse + SecondUse[..k], gap, AnySignature)
    ensures Final(ENROLLED, FirstUse + SecondUse[..k]) == SecondState(k)
  {
    if k == 0 {
      assert FirstUse + SecondUse[..0] == FirstUse[..3];
      FirstUseRuns(3, gap);
    } else {
      SecondUseRuns(k - 1, gap);
      if k <= 3 {
        SecondUseReceived(k - 1, gap);
      } else {
        SecondUsePruned(k - 1, gap);
      }
      RunsAppend(ENROLLED, FirstUse + SecondUse[..k - 1], SecondUse[k - 1], gap, AnySignature);
      TakeNext(FirstUse, SecondUse, k);
    }
  }

  lemma ReplayRunWorks(gap: int)
    requires gap > MAX_CLOCK_SKEW
    ensures Initial(ENROLLED) && Runs(ENROLLED, FirstUse + SecondUse, gap, AnySignature)
    ensures !AcceptedOnce(Final(ENROLLED, FirstUse + SecondUse))
  {
    SecondUseRuns(6, gap);
    assert SecondUse[..6] == SecondUse;
    var end := SecondState(6);
    assert SameRequest(end.accepted[0], end.accepted[1]);
  }

  /** Main theorem. Every signed request is accepted at most once in every interleaving of checks,
      lookups, inserts, pruning, enrollment and revocation, exactly when the time from a request's
      skew check to its nonce insert never exceeds one skew window. */
  lemma ReplayProtectionIff(gap: int)
    ensures SafeWithGap(gap) <==> gap <= MAX_CLOCK_SKEW
  {
    if gap <= MAX_CLOCK_SKEW {
      forall s, steps, verify | Initial(s) && Runs(s, steps, gap, verify) ensures AcceptedOnce(Final(s, steps)) {
        RunsWiden(s, steps, gap, MAX_CLOCK_SKEW, verify);
        InvOverRuns(s, steps, verify);
      }
    } else {
      ReplayRunWorks(gap);
    }
  }

  /* ----- what every accepted request went through ----- */

  predicate HexOrDash(c: char) {
    c in "0123456789abcdefABCDEF-"
  }

  lemma NonceCharIs(c: char)
    ensures NonceChar(c) <==> HexOrDash(c)
  {
    var all := "0123456789abcdefABCDEF-";
    if NonceChar(c) {
      var i := if c == '-' then 22 else if c <= '9' then c as int - '0' as int
               else if c >= 'a' then c as int - 'a' as int + 10 else c as int - 'A' as int + 16;
      assert all[i] == c;
    }
  }

  lemma NonceIsHex(nonce: string)
    requires ValidNonce(nonce)
    ensures forall k :: 0 <= k < |nonce| ==> HexOrDash(nonce[k])
  {
    forall k | 0 <= k < |nonce| ensures HexOrDash(nonce[k]) {
      NonceCharIs(nonce[k]);
    }
  }

  /** Step `i` let the request in: its headers and timestamp were fine then. */
  ghost predicate ReceivedAt(s: System, steps: seq<Step>, conn: ConnectionId, i: nat, request: Request, at: int) {
    && i < |steps| && steps[i] == Receive(conn, request)
    && Final(s, steps[..i]).now == at
    && -300_000_000_000 <= request.timestamp - at <= 300_000_000_000
    && 16 <= |request.nonce| <= 128 && (forall k :: 0 <= k < |request.nonce| ==> HexOrDash(request.nonce[k]))
    && request.deviceUid != "" && request.signature != ""
  }

  /** Step `j` identified the device: it was active and its key verified the signature then. */
  ghost predicate IdentifiedAt(s: System, steps: seq<Step>, conn: ConnectionId, j: nat, t: Ticket, verify: Verifier) {
    && j < |steps| && steps[j] == Identify(conn)
    && var devices := Final(s, steps[..j]).devices;
    && t.request.deviceUid in devices && devices[t.request.deviceUid].id == t.deviceId
    && devices[t.request.deviceUid].state == Active
    && verify(devices[t.request.deviceUid].publicKey, t.request)
  }

  ghost predicate CheckedTwice(s: System, steps: seq<Step>, conn: ConnectionId, i: nat, j: nat, t: Ticket,
                               verify: Verifier)
  {
    i < j && ReceivedAt(s, steps, conn, i, t.request, t.checkedAt) && IdentifiedAt(s, steps, conn, j, t, verify)
  }

  ghost predicate WasChecked(s: System, steps: seq<Step>, t: Ticket, verify: Verifier) {
    exists conn, i, j :: CheckedTwice(s, steps, conn, i, j, t, verify)
  }

  /** How a request being handled got where it is. */
  ghost predicate Progressed(s: System, steps: seq<Step>, conn: ConnectionId, h: Handling, verify: Verifier) {
    match h
    case Arriving(request, at) => exists i :: ReceivedAt(s, steps, conn, i, request, at)
    case Identified(t) => exists i, j :: CheckedTwice(s, steps, conn, i, j, t, verify)
  }

  lemma ReceivedStays(s: System, steps: seq<Step>, step: Step, conn: ConnectionId, i: nat, request: Request, at: int)
    requires ReceivedAt(s, steps, conn, i, request, at)
    ensures ReceivedAt(s, steps + [step], conn, i, request, at)
  {
    assert (steps + [step])[..i] == steps[..i];
  }

  lemma CheckedStays(s: System, steps: seq<Step>, step: Step, conn: ConnectionId, i: nat, j: nat,
                     t: Ticket, verify: Verifier)
    requires CheckedTwice(s, steps, conn, i, j, t, verify)
    ensures CheckedTwice(s, steps + [step], conn, i, j, t, verify)
  {
    ReceivedStays(s, steps, step, conn, i, t.request, t.checkedAt);
    assert (steps + [step])[..j] == steps[..j];
  }

  lemma ProgressStays(s: System, steps: seq<Step>, step: Step, conn: ConnectionId, h: Handling, verify: Verifier)
    requires Progressed(s, steps, conn, h, verify)
    ensures Progressed(s, steps + [step], conn, h, verify)
  {
    match h
    case Arriving(request, at) =>
      var i :| ReceivedAt(s, steps, conn, i, request, at);
      ReceivedStays(s, steps, step, conn, i, request, at);
    case Identified(t) =>
      var i, j :| CheckedTwice(s, steps, conn, i, j, t, verify);
      CheckedStays(s, steps, step, conn, i, j, t, verify);
  }

  lemma ReceiveProgresses(s: System, steps: seq<Step>, conn: ConnectionId, request: Request, verify: Verifier)
    requires Timely(request, Final(s, steps).now)
    ensures Progressed(s, steps + [Receive(conn, request)], conn, Arriving(request, Final(s, steps).now), verify)
  {
    assert (steps + [Receive(conn, request)])[..|steps|] == steps;
    NonceIsHex(request.nonce);
    assert ReceivedAt(s, steps + [Receive(conn, request)], conn, |steps|, request, Final(s, steps).now);
  }

  lemma IdentifyProgresses(s: System, steps: seq<Step>, conn: ConnectionId, t: Ticket, verify: Verifier)
    requires Progressed(s, steps, conn, Arriving(t.request, t.checkedAt), verify)
    requires Identifies(t.request, Final(s, steps).devices, verify)
    requires Final(s, steps).devices[t.request.deviceUid].id == t.deviceId
    ensures Progressed(s, steps + [Identify(conn)], conn, Identified(t), verify)
  {
    var all := steps + [Identify(conn)];
    var i :| ReceivedAt(s, steps, conn, i, t.request, t.checkedAt);
    ReceivedStays(s, steps, Identify(conn), conn, i, t.request, t.checkedAt);
    assert all[..|steps|] == steps;
    assert IdentifiedAt(s, all, conn, |steps|, t, verify);
    assert CheckedTwice(s, all, conn, i, |steps|, t, verify);
  }

  ghost predicate HandlingChecked(s: System, steps: seq<Step>, verify: Verifier) {
    forall c :: c in Final(s, steps).handling ==> Progressed(s, steps, c, Final(s, steps).handling[c], verify)
  }

  lemma HandlingCheckedStep(s: System, init: seq<Step>, step: Step, gap: int, verify: Verifier)
    requires HandlingChecked(s, init, verify) && Enabled(Final(s, init), step, gap, verify)
    ensures HandlingChecked(s, init + [step], verify)
  {
    var before := Final(s, init);
    assert (init + [step])[..|init|] == init;
    var after := Final(s, init + [step]);
    forall c | c in after.handling ensures Progressed(s, init + [step], c, after.handling[c], verify) {
      if step.Receive? && step.conn == c {
        ReceiveProgresses(s, init, c, step.request, verify);
      } else if step.Identify? && step.conn == c {
        IdentifyProgresses(s, init, c, after.handling[c].ticket, verify);
      } else {
        assert after.handling[c] == before.handling[c];
        ProgressStays(s, init, step, c, before.handling[c], verify);
      }
    }
  }

  lemma AcceptedCheckedStep(s: System, init: seq<Step>, step: Step, gap: int, verify: Verifier, t: Ticket)
    requires HandlingChecked(s, init, verify) && Enabled(Final(s, init), step, gap, verify)
    requires t in Final(s, init).accepted ==> WasChecked(s, init, t, verify)
    requires t in Next(Final(s, init), step).accepted
    ensures WasChecked(s, init + [step], t, verify)
  {
    if t !in Final(s, init).accepted {
      assert Progressed(s, init, step.conn, Identified(t), verify);
    }
    var conn, i, j :| CheckedTwice(s, init, conn, i, j, t, verify);
    CheckedStays(s, init, step, conn, i, j, t, verify);
  }

  /** Every accepted request went through both groups of checks, in this order: its headers and
      timestamp at the moment of the skew check, its device's state and signature at the lookup. No
      interleaving gets around either. */
  lemma {:induction false} AcceptedWereChecked(s: System, steps: seq<Step>, gap: int, verify: Verifier)
    requires Initial(s) && Runs(s, steps, gap, verify)
    ensures forall t :: t in Final(s, steps).accepted ==> WasChecked(s, steps, t, verify)
    ensures HandlingChecked(s, steps, verify)
  {
    if steps != [] {
      var init, step := steps[..|steps| - 1], steps[|steps| - 1];
      AcceptedWereChecked(s, init, gap, verify);
      assert steps == init + [step];
      HandlingCheckedStep(s, init, step, gap, verify);
      forall t | t in Final(s, steps).accepted ensures WasChecked(s, steps, t, verify) {
        AcceptedCheckedStep(s, init, step, gap, verify, t);
      }
    }
  }

  /* Revocation. */

  /** The device is revoked, and no request under its name has passed the lookup yet. */
  ghost predicate ShutOut(s: System, uid: string) {
    && uid in s.devices && s.devices[uid].state == Revoked
    && forall c :: c in s.handling && s.handling[c].Identified? ==> s.handling[c].ticket.request.deviceUid != uid
  }

  lemma ShutOutStep(s: System, step: Step, uid: string, gap: int, verify: Verifier)
    requires ShutOut(s, uid) && Enabled(s, step, gap, verify)
    ensures ShutOut(Next(s, step), uid)
    ensures forall t :: t in Next(s, step).accepted && t !in s.accepted ==> t.request.deviceUid != uid
  {
  }

  /** Revocation is final and immediate: from then on, in every run, no request under that device's
      name is accepted, except those whose lookup had already passed. */
  lemma {:induction false} RevokedIsNeverAccepted(s: System, steps: seq<Step>, uid: string, gap: int, verify: Verifier)
    requires ShutOut(s, uid) && Runs(s, steps, gap, verify)
    ensures ShutOut(Final(s, steps), uid)
    ensures forall t :: t in Final(s, steps).accepted && t !in s.accepted ==> t.request.deviceUid != uid
  {
    if steps != [] {
      RevokedIsNeverAccepted(s, steps[..|steps| - 1], uid, gap, verify);
      ShutOutStep(Final(s, steps[..|steps| - 1]), steps[|steps| - 1], uid, gap, verify);
    }
  }

  /* There need not be one moment at which everything holds. */

  const LATE := REPLAYED.(timestamp := -MAX_CLOCK_SKEW)
  const UNENROLLED := System(0, map[], map[], map[], [])

  /** The timestamp is timely only at time 0; the device is enrolled at time 1, while the body is
      still arriving. */
  const SlowBody := [Receive(1, LATE), Tick(1), Enroll(AGENT_UID, AGENT), Identify(1), Consume(1)]

  function SlowState(k: nat): System {
    var arriving := map[1 := Arriving(LATE, 0)];
    var s := UNENROLLED;
    if k == 0 then s
    else if k == 1 then s.(handling := arriving)
    else if k == 2 then s.(handling := arriving, now := 1)
    else if k == 3 then s.(handling := arriving, now := 1, devices := map[AGENT_UID := AGENT])
    else if k == 4 then s.(handling := map[1 := Identified(Ticket(1, LATE, 0))], now := 1,
                           devices := map[AGENT_UID := AGENT])
    else System(1, map[AGENT_UID := AGENT], map[(1, LATE.nonce) := LATE.timestamp], map[], [Ticket(1, LATE, 0)])
  }

  lemma SlowBodyStep(k: nat)
    requires k < 5
    ensures Enabled(SlowState(k), SlowBody[k], 1, AnySignature) && Next(SlowState(k), SlowBody[k]) == SlowState(k + 1)
  {
    assert k == 4 ==> SlowState(k).handling - {1} == map[];
  }

  lemma {:induction false} SlowBodyRuns(k: nat)
    requires k <= 5
    ensures Runs(UNENROLLED, SlowBody[..k], 1, AnySignature) && Final(UNENROLLED, SlowBody[..k]) == SlowState(k)
  {
    if k > 0 {
      SlowBodyRuns(k - 1);
      SlowBodyStep(k - 1);
      RunsAppend(UNENROLLED, SlowBody[..k - 1], SlowBody[k - 1], 1, AnySignature);
      TakeNext([], SlowBody, k);
      assert [] + SlowBody[..k - 1] == SlowBody[..k - 1] && [] + SlowBody[..k] == SlowBody[..k];
    }
  }

  /** A request can be accepted although at no moment of the run it would have passed all checks. */
  lemma NoSingleMomentNeeded()
    ensures Initial(UNENROLLED) && Runs(UNENROLLED, SlowBody, 1, AnySignature)
    ensures Final(UNENROLLED, SlowBody).accepted == [Ticket(1, LATE, 0)]
    ensures forall k :: 0 <= k <= 5 ==>
              !(Timely(LATE, Final(UNENROLLED, SlowBody[..k]).now)
                && Identifies(LATE, Final(UNENROLLED, SlowBody[..k]).devices, AnySignature))
  {
    SlowBodyRuns(5);
    assert SlowBody[..5] == SlowBody;
    forall k | 0 <= k <= 5
      ensures !(Timely(LATE, Final(UNENROLLED, SlowBody[..k]).now)
                && Identifies(LATE, Final(UNENROLLED, SlowBody[..k]).devices, AnySignature))
    {
      SlowBodyRuns(k);
    }
  }
}
