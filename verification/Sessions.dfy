/** Session establishment by device attestation (backend/internal/session/store.go,
    backend/internal/session/attestation.go, backend/cmd/netrad/main.go).

    `Begin` is one transaction over the nonce row, so it is one step here. */
module Sessions {
  import opened Common

  /** Two minutes and fifteen minutes, in nanoseconds. */
  const NONCE_TTL := 120_000_000_000
  const HEARTBEAT_FRESHNESS := 900_000_000_000
  const NONCE_CHARS := 64

  type UserId = nat
  type DeviceId = nat
  type SessionId = nat
  type PublicKey = seq<int>

  datatype Device = Device(id: DeviceId, publicKey: PublicKey, active: bool, lastHeartbeat: Option<int>)

  datatype NonceRow = NonceRow(user: UserId, usedAt: Option<int>, expiresAt: int, session: Option<SessionId>)

  datatype Status = Active | Restricted | Isolated | Ended

  datatype Session = Session(user: UserId, device: DeviceId, status: Status)

  datatype BeginRequest = BeginRequest(
    user: UserId, subject: string, deviceUid: string, nonce: string, signature: string)

  /** Ed25519 over the attestation string of nonce and subject. */
  type Verifier = (PublicKey, BeginRequest) -> bool

  datatype BeginResult =
    | Begun(id: SessionId)
    | InvalidRequest | DeviceUnusable | BadAttestation | BadNonce | StoreFailed

  datatype State = State(nonces: map<string, NonceRow>, sessions: map<SessionId, Session>)

  predicate LowerHex(c: char) {
    '0' <= c <= '9' || 'a' <= c <= 'f'
  }

  predicate NonceFormat(nonce: string) {
    |nonce| == NONCE_CHARS && forall i :: 0 <= i < |nonce| ==> LowerHex(nonce[i])
  }

  predicate WellFormed(req: BeginRequest) {
    && NonceFormat(req.nonce)
    && TrimSpace(req.deviceUid) != "" && ByteLen(req.deviceUid) <= 128
    && TrimSpace(req.signature) != "" && ByteLen(req.signature) <= 512
  }

  /** The device can back a session now. */
  predicate Usable(d: Device, now: int) {
    d.active && d.lastHeartbeat.Some? && now - d.lastHeartbeat.value <= HEARTBEAT_FRESHNESS
  }

  /** The nonce row lets this user begin now. */
  predicate Spendable(nonces: map<string, NonceRow>, req: BeginRequest, now: int) {
    && req.nonce in nonces
    && nonces[req.nonce].usedAt.None?
    && now <= nonces[req.nonce].expiresAt
    && nonces[req.nonce].user == req.user
  }

  /** The answer to a Begin. The order of the checks is the order of the answers; unknown, spent,
      expired and foreign nonces all get the same one. */
  function Answer(s: State, req: BeginRequest, devices: map<string, Device>, now: int, id: SessionId,
                  commits: bool, verify: Verifier): BeginResult {
    if !WellFormed(req) then InvalidRequest
    else if req.deviceUid !in devices || !Usable(devices[req.deviceUid], now) then DeviceUnusable
    else if !verify(devices[req.deviceUid].publicKey, req) then BadAttestation
    else if !Spendable(s.nonces, req, now) then BadNonce
    else if !commits then StoreFailed
    else Begun(id)
  }

  function AfterBegin(s: State, req: BeginRequest, devices: map<string, Device>, now: int, id: SessionId,
                      commits: bool, verify: Verifier): State {
    if Answer(s, req, devices, now, id, commits, verify).Begun?
    then
      State(s.nonces[req.nonce := s.nonces[req.nonce].(usedAt := Some(now), session := Some(id))],
            s.sessions[id := Session(req.user, devices[req.deviceUid].id, Active)])
    else s
  }

  function AfterPrune(s: State, before: int): State {
    s.(nonces := map n | n in s.nonces && !(s.nonces[n].expiresAt < before) :: s.nonces[n])
  }

  class Store {
    var nonces: map<string, NonceRow>
    var sessions: map<SessionId, Session>

    ghost function Snapshot(): State
      reads this
    {
      State(nonces, sessions)
    }

    constructor ()
      ensures Snapshot() == State(map[], map[])
    {
      nonces, sessions := map[], map[];
    }

    /** `nonce` is the random value; a primary-key conflict is an error and changes nothing. */
    method IssueNonce(user: UserId, nonce: string, now: int) returns (expiresAt: Option<int>)
      modifies this
      ensures expiresAt.Some? <==> nonce !in old(nonces)
      ensures expiresAt.Some? ==>
                && expiresAt.value == now + 120_000_000_000
                && Snapshot() == old(Snapshot())
                                 .(nonces := old(nonces)[nonce := NonceRow(user, None, now + NONCE_TTL, None)])
      ensures expiresAt.None? ==> Snapshot() == old(Snapshot())
    {
      if nonce in nonces {
        return None;
      }
      nonces := nonces[nonce := NonceRow(user, None, now + NONCE_TTL, None)];
      return Some(now + NONCE_TTL);
    }

    method ValidateNonceFormat(nonce: string) returns (ok: bool)
      ensures ok <==> NonceFormat(nonce)
    {
      if |nonce| != NONCE_CHARS {
        return false;
      }
      for i := 0 to |nonce|
        invariant forall j :: 0 <= j < i ==> LowerHex(nonce[j])
      {
        if !LowerHex(nonce[i]) {
          return false;
        }
      }
      return true;
    }

    /** `id` is the fresh session identifier the database would assign, `commits` its answer to the
        writes; a failure leaves no trace. */
    method Begin(req: BeginRequest, devices: map<string, Device>, now: int, id: SessionId, commits: bool,
                 verify: Verifier)
      returns (result: BeginResult)
      modifies this
      ensures result == Answer(old(Snapshot()), req, devices, now, id, commits, verify)
      ensures Snapshot() == AfterBegin(old(Snapshot()), req, devices, now, id, commits, verify)
    {
      var wellFormed := ValidateNonceFormat(req.nonce);
      if !wellFormed || TrimSpace(req.deviceUid) == "" || ByteLen(req.deviceUid) > 128
         || TrimSpace(req.signature) == "" || ByteLen(req.signature) > 512 {
        return InvalidRequest;
      }
      if req.deviceUid !in devices {
        return DeviceUnusable;
      }
      var enrolled := devices[req.deviceUid];
      if !enrolled.active || enrolled.lastHeartbeat.None?
         || now - enrolled.lastHeartbeat.value > HEARTBEAT_FRESHNESS {
        return DeviceUnusable;
      }
      if !verify(enrolled.publicKey, req) {
        return BadAttestation;
      }
      if req.nonce !in nonces {
        return BadNonce;
      }
      var row := nonces[req.nonce];
      if row.usedAt.Some? || now > row.expiresAt || row.user != req.user {
        return BadNonce;
      }
      if !commits {
        return StoreFailed;
      }
      sessions := sessions[id := Session(req.user, enrolled.id, Active)];
      nonces := nonces[req.nonce := row.(usedAt := Some(now), session := Some(id))];
      return Begun(id);
    }

    method PruneNonces(before: int) returns (removed: nat)
      modifies this
      ensures Snapshot() == AfterPrune(old(Snapshot()), before)
      ensures forall n :: n in nonces <==> n in old(nonces) && old(nonces)[n].expiresAt >= before
      ensures forall n :: n in nonces ==> nonces[n] == old(nonces)[n]
      ensures removed == |old(nonces)| - |nonces|
    {
      var kept := map n | n in nonces && !(nonces[n].expiresAt < before) :: nonces[n];
      var dropped := set n | n in nonces && nonces[n].expiresAt < before;
      assert nonces.Keys == kept.Keys + dropped && kept.Keys !! dropped;
      removed := |dropped|;
      nonces := kept;
    }
  }

  /* ----- every interleaving ----- */

  datatype Step =
    | Tick(to: int)
    | Issue(user: UserId, nonce: string)
    | Begin(request: BeginRequest, devices: map<string, Device>, id: SessionId, commits: bool)
    | Prune(before: int)

  /** `issued` and `begun` are history: who each nonce was issued to and when, and every
      session begun with its nonce and time. */
  datatype Opening = Opening(id: SessionId, user: UserId, device: DeviceId, nonce: string, at: int)

  datatype System = System(now: int, state: State, issued: map<string, (UserId, int)>, begun: seq<Opening>)

  /** Random nonces and database identifiers are fresh, and the pruner uses the current time. */
  predicate Enabled(s: System, step: Step) {
    match step
    case Tick(to) => s.now <= to
    case Issue(_, nonce) => nonce !in s.issued
    case Begin(_, _, id, _) => id !in s.state.sessions
    case Prune(before) => before <= s.now
  }

  function Next(s: System, step: Step, verify: Verifier): System {
    match step
    case Tick(to) => s.(now := to)
    case Issue(user, nonce) =>
      s.(state := s.state.(nonces := s.state.nonces[nonce := NonceRow(user, None, s.now + NONCE_TTL, None)]),
         issued := s.issued[nonce := (user, s.now)])
    case Begin(req, devices, id, commits) =>
      var answer := Answer(s.state, req, devices, s.now, id, commits, verify);
      s.(state := AfterBegin(s.state, req, devices, s.now, id, commits, verify),
         begun := if answer.Begun?
                  then s.begun + [Opening(id, req.user, devices[req.deviceUid].id, req.nonce, s.now)]
                  else s.begun)
    case Prune(before) => s.(state := AfterPrune(s.state, before))
  }

  ghost predicate Runs(s: System, steps: seq<Step>, verify: Verifier)
    decreases |steps|
  {
    steps == [] || (Enabled(s, steps[0]) && Runs(Next(s, steps[0], verify), steps[1..], verify))
  }

  function Final(s: System, steps: seq<Step>, verify: Verifier): System
    decreases |steps|
  {
    if steps == [] then s else Final(Next(s, steps[0], verify), steps[1..], verify)
  }

  predicate Initial(s: System) {
    s.state.nonces == map[] && s.issued == map[] && s.begun == []
  }

  /** Each opened session stands on a nonce issued to that user, at most two minutes earlier. */
  ghost predicate Justified(s: System, o: Opening) {
    && o.nonce in s.issued && s.issued[o.nonce].0 == o.user && o.at <= s.issued[o.nonce].1 + 120_000_000_000
    && o.id in s.state.sessions && s.state.sessions[o.id].user == o.user && s.state.sessions[o.id].device == o.device
  }

  ghost predicate SingleUse(s: System) {
    forall i, j :: 0 <= i < j < |s.begun| ==> s.begun[i].nonce != s.begun[j].nonce && s.begun[i].id != s.begun[j].id
  }

  ghost predicate Inv(s: System) {
    && SingleUse(s)
    && (forall i :: 0 <= i < |s.begun| ==> Justified(s, s.begun[i]))
    && (forall i :: 0 <= i < |s.begun| && s.begun[i].nonce in s.state.nonces ==>
          s.state.nonces[s.begun[i].nonce].usedAt.Some?)
    && (forall n :: n in s.state.nonces ==>
          n in s.issued && s.issued[n] == (s.state.nonces[n].user, s.state.nonces[n].expiresAt - NONCE_TTL))
  }

  /** A session opens: its nonce was unspent, so no earlier session used it. */
  lemma BegunInv(s: System, step: Step, verify: Verifier)
    requires Inv(s) && step.Begin? && Enabled(s, step)
    requires Answer(s.state, step.request, step.devices, s.now, step.id, step.commits, verify).Begun?
    ensures Inv(Next(s, step, verify))
  {
    var s' := Next(s, step, verify);
    forall i | 0 <= i < |s.begun|
      ensures Justified(s', s.begun[i]) && s.begun[i].nonce != step.request.nonce && s.begun[i].id != step.id
    {
      assert Justified(s, s.begun[i]);
    }
    assert Justified(s', s'.begun[|s.begun|]);
  }

  lemma OtherStepInv(s: System, step: Step, verify: Verifier)
    requires Inv(s) && Enabled(s, step) && Next(s, step, verify).begun == s.begun
    requires Next(s, step, verify).state.sessions == s.state.sessions
    ensures Inv(Next(s, step, verify))
  {
    var s' := Next(s, step, verify);
    forall i | 0 <= i < |s.begun| ensures Justified(s', s.begun[i]) {
      assert Justified(s, s.begun[i]);
    }
  }

  lemma InvStep(s: System, step: Step, verify: Verifier)
    requires Inv(s) && Enabled(s, step)
    ensures Inv(Next(s, step, verify))
  {
    if step.Begin? && Answer(s.state, step.request, step.devices, s.now, step.id, step.commits, verify).Begun? {
      BegunInv(s, step, verify);
    } else {
      OtherStepInv(s, step, verify);
    }
  }

  lemma {:induction false} InvOverRuns(s: System, steps: seq<Step>, verify: Verifier)
    requires Inv(s) && Runs(s, steps, verify)
    ensures Inv(Final(s, steps, verify))
    decreases |steps|
  {
    if steps != [] {
      InvStep(s, steps[0], verify);
      InvOverRuns(Next(s, steps[0], verify), steps[1..], verify);
    }
  }

  /** Main theorem. Over every interleaving of issuing, beginning and pruning, a nonce opens at most
      one session, for the user it was issued to, and only before it expired. */
  lemma NonceIsSingleUse(s: System, steps: seq<Step>, verify: Verifier)
    requires Initial(s) && Runs(s, steps, verify)
    ensures var end := Final(s, steps, verify);
            SingleUse(end) && forall i :: 0 <= i < |end.begun| ==> Justified(end, end.begun[i])
  {
    InvOverRuns(s, steps, verify);
  }

  /* ----- what every session stands on ----- */

  /** The device was known, active and heard from within fifteen minutes, and its key verified that
      very request. */
  ghost predicate Attested(req: BeginRequest, devices: map<string, Device>, device: DeviceId, at: int,
                           verify: Verifier)
  {
    && req.deviceUid in devices && devices[req.deviceUid].id == device
    && devices[req.deviceUid].active
    && devices[req.deviceUid].lastHeartbeat.Some?
    && at - devices[req.deviceUid].lastHeartbeat.value <= 900_000_000_000
    && verify(devices[req.deviceUid].publicKey, req)
  }

  /** Step `i` opened the session, for an attested request of that user with that nonce. */
  ghost predicate AttestedAt(s: System, steps: seq<Step>, i: nat, o: Opening, verify: Verifier) {
    && i < |steps| && steps[i].Begin? && steps[i].id == o.id && steps[i].commits
    && steps[i].request.user == o.user && steps[i].request.nonce == o.nonce
    && Final(s, steps[..i], verify).now == o.at
    && Attested(steps[i].request, steps[i].devices, o.device, o.at, verify)
    && Presentable(steps[i].request)
  }

  /** The nonce is 64 lower-case hexadecimal characters; device and signature are given and not too long. */
  ghost predicate Presentable(req: BeginRequest) {
    && |req.nonce| == 64 && (forall i :: 0 <= i < 64 ==> '0' <= req.nonce[i] <= '9' || 'a' <= req.nonce[i] <= 'f')
    && TrimSpace(req.deviceUid) != "" && ByteLen(req.deviceUid) <= 128
    && TrimSpace(req.signature) != "" && ByteLen(req.signature) <= 512
  }

  ghost predicate WasAttested(s: System, steps: seq<Step>, o: Opening, verify: Verifier) {
    exists i: nat :: AttestedAt(s, steps, i, o, verify)
  }

  lemma AttestedLater(s: System, steps: seq<Step>, o: Opening, verify: Verifier)
    requires steps != [] && WasAttested(Next(s, steps[0], verify), steps[1..], o, verify)
    ensures WasAttested(s, steps, o, verify)
  {
    var rest := steps[1..];
    var i: nat :| AttestedAt(Next(s, steps[0], verify), rest, i, o, verify);
    assert steps[..i + 1][1..] == rest[..i] && steps[i + 1] == rest[i];
    assert AttestedAt(s, steps, i + 1, o, verify);
  }

  lemma AttestedNow(s: System, steps: seq<Step>, o: Opening, verify: Verifier)
    requires steps != [] && o in Next(s, steps[0], verify).begun && o !in s.begun
    ensures WasAttested(s, steps, o, verify)
  {
    assert steps[..0] == [];
    assert AttestedAt(s, steps, 0, o, verify);
  }

  lemma {:induction false} OpeningWasAttested(s: System, steps: seq<Step>, o: Opening, verify: Verifier)
    requires o !in s.begun && o in Final(s, steps, verify).begun
    ensures WasAttested(s, steps, o, verify)
    decreases |steps|
  {
    var s' := Next(s, steps[0], verify);
    if o in s'.begun {
      AttestedNow(s, steps, o, verify);
    } else {
      OpeningWasAttested(s', steps[1..], o, verify);
      AttestedLater(s, steps, o, verify);
    }
  }

  /** Main theorem on attestation. Over every run each session was opened by a request that a known,
      active and recently heard-from device signed, and it belongs to that device. */
  lemma SessionsAreAttested(s: System, steps: seq<Step>, verify: Verifier)
    requires Initial(s) && Runs(s, steps, verify)
    ensures var end := Final(s, steps, verify);
            forall i :: 0 <= i < |end.begun| ==>
              && WasAttested(s, steps, end.begun[i], verify)
              && end.begun[i].id in end.state.sessions
              && end.state.sessions[end.begun[i].id].device == end.begun[i].device
  {
    InvOverRuns(s, steps, verify);
    var end := Final(s, steps, verify);
    forall i | 0 <= i < |end.begun|
      ensures WasAttested(s, steps, end.begun[i], verify) && Justified(end, end.begun[i])
    {
      OpeningWasAttested(s, steps, end.begun[i], verify);
    }
  }

  /** A request that is not attested opens nothing and leaves every nonce as it was, so that a nonce
      the user could begin with is still good. */
  lemma UnattestedBeginChangesNothing(s: System, req: BeginRequest, devices: map<string, Device>, id: SessionId,
                                      commits: bool, verify: Verifier)
    requires forall device :: !Attested(req, devices, device, s.now, verify)
    ensures Next(s, Begin(req, devices, id, commits), verify) == s
    ensures !Answer(s.state, req, devices, s.now, id, commits, verify).Begun?
  {
    if req.deviceUid in devices {
      assert !Attested(req, devices, devices[req.deviceUid].id, s.now, verify);
    }
  }

  /** Conversely, a well-formed attested request with a nonce that was issued to the user, is unspent
      and has not expired is never refused. */
  lemma AttestedBeginSucceeds(s: System, req: BeginRequest, devices: map<string, Device>, device: DeviceId,
                              id: SessionId, verify: Verifier)
    requires Attested(req, devices, device, s.now, verify) && Presentable(req)
    requires req.nonce in s.state.nonces && s.state.nonces[req.nonce].usedAt.None?
    requires s.state.nonces[req.nonce].user == req.user && s.now <= s.state.nonces[req.nonce].expiresAt
    ensures Answer(s.state, req, devices, s.now, id, true, verify) == Begun(id)
    ensures Next(s, Begin(req, devices, id, true), verify).begun
         == s.begun + [Opening(id, req.user, device, req.nonce, s.now)]
  {
  }

  /* ----- pruning is invisible ----- */

  function Answers(s: System, steps: seq<Step>, verify: Verifier): seq<BeginResult>
    decreases |steps|
  {
    if steps == [] then []
    else
      var rest := Answers(Next(s, steps[0], verify), steps[1..], verify);
      if steps[0].Begin?
      then [Answer(s.state, steps[0].request, steps[0].devices, s.now, steps[0].id, steps[0].commits, verify)] + rest
      else rest
  }

  function WithoutPrunes(steps: seq<Step>): seq<Step> {
    if steps == [] then []
    else if steps[0].Prune? then WithoutPrunes(steps[1..])
    else [steps[0]] + WithoutPrunes(steps[1..])
  }

  /** Same sessions and history; the pruned side may miss rows that have already expired. */
  ghost predicate Shadow(pruned: System, full: System) {
    && pruned.now == full.now && pruned.issued == full.issued && pruned.begun == full.begun
    && pruned.state.sessions == full.state.sessions
    && (forall n :: n in pruned.state.nonces ==>
          n in full.state.nonces && full.state.nonces[n] == pruned.state.nonces[n])
    && (forall n :: n in full.state.nonces && n !in pruned.state.nonces ==> full.state.nonces[n].expiresAt < full.now)
  }

  lemma ShadowSameAnswer(pruned: System, full: System, req: BeginRequest, devices: map<string, Device>,
                         id: SessionId, commits: bool, verify: Verifier)
    requires Shadow(pruned, full)
    ensures Answer(pruned.state, req, devices, pruned.now, id, commits, verify)
         == Answer(full.state, req, devices, full.now, id, commits, verify)
  {
    assert Spendable(pruned.state.nonces, req, pruned.now) == Spendable(full.state.nonces, req, full.now);
  }

  lemma ShadowStep(pruned: System, full: System, step: Step, verify: Verifier)
    requires Shadow(pruned, full) && Enabled(pruned, step) && !step.Prune?
    ensures Enabled(full, step) && Shadow(Next(pruned, step, verify), Next(full, step, verify))
  {
    if step.Begin? {
      ShadowSameAnswer(pruned, full, step.request, step.devices, step.id, step.commits, verify);
    }
  }

  lemma {:induction false} PruningInvisibleFrom(pruned: System, full: System, steps: seq<Step>, verify: Verifier)
    requires Shadow(pruned, full) && Runs(pruned, steps, verify)
    ensures Runs(full, WithoutPrunes(steps), verify)
    ensures Answers(pruned, steps, verify) == Answers(full, WithoutPrunes(steps), verify)
    ensures Final(pruned, steps, verify).state.sessions == Final(full, WithoutPrunes(steps), verify).state.sessions
    decreases |steps|
  {
    if steps != [] {
      var step, rest := steps[0], WithoutPrunes(steps[1..]);
      if step.Prune? {
        PruningInvisibleFrom(Next(pruned, step, verify), full, steps[1..], verify);
      } else {
        ShadowStep(pruned, full, step, verify);
        PruningInvisibleFrom(Next(pruned, step, verify), Next(full, step, verify), steps[1..], verify);
        assert ([step] + rest)[1..] == rest;
        if step.Begin? {
          ShadowSameAnswer(pruned, full, step.request, step.devices, step.id, step.commits, verify);
        }
      }
    }
  }

  /** Pruning never changes the outcome of any Begin, nor the sessions that exist. */
  lemma PruningIsInvisible(s: System, steps: seq<Step>, verify: Verifier)
    requires Runs(s, steps, verify)
    ensures Answers(s, steps, verify) == Answers(s, WithoutPrunes(steps), verify)
    ensures Final(s, steps, verify).state.sessions == Final(s, WithoutPrunes(steps), verify).state.sessions
  {
    PruningInvisibleFrom(s, s, steps, verify);
  }
}
