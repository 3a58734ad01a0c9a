/** Device enrollment across crashes (agent/netra-agent/src/enrollment.rs,
    backend/internal/device/store.go).

    The agent generates a key, stores it, sends the public half, and saves the registration; it may
    stop between any two of these. The server may process a request late. Key pairs are symbolic: a
    public key is the public half of exactly one secret. */
module Enrollment {
  import opened Common

  type Secret = nat
  /** SHA-256 of the trimmed enrollment token. */
  type Digest = nat

  datatype PublicKey = PublicOf(secret: Secret)

  datatype Request = Request(
    token: Digest, deviceUid: string, publicKey: PublicKey, hostname: string, osName: string,
    osVersion: string, agentVersion: string, keyProtection: string)

  /* ----- server ----- */

  datatype Token = Token(usedBy: Option<string>, expiresAt: int)

  datatype Server = Server(devices: map<string, PublicKey>, tokens: map<Digest, Token>)

  datatype EnrollResult = Enrolled | InvalidRequest | BadToken | DeviceExists

  predicate RequiredField(value: string) {
    TrimSpace(value) != "" && ByteLen(value) <= 128
  }

  predicate ValidRequest(r: Request) {
    && 8 <= ByteLen(TrimSpace(r.deviceUid)) <= 128
    && TrimSpace(r.hostname) != "" && ByteLen(r.hostname) <= 255
    && r.keyProtection in {"software", "tpm", "windows-cert-store"}
    && RequiredField(r.osName) && RequiredField(r.osVersion) && RequiredField(r.agentVersion)
  }

  predicate Spendable(s: Server, token: Digest, now: int) {
    token in s.tokens && s.tokens[token].usedBy.None? && now <= s.tokens[token].expiresAt
  }

  function EnrollAnswer(s: Server, r: Request, now: int): EnrollResult {
    if !ValidRequest(r) then InvalidRequest
    else if !Spendable(s, r.token, now) then BadToken
    else if r.deviceUid in s.devices then DeviceExists
    else Enrolled
  }

  function AfterEnroll(s: Server, r: Request, now: int): Server {
    if EnrollAnswer(s, r, now).Enrolled?
    then
      Server(s.devices[r.deviceUid := r.publicKey],
             s.tokens[r.token := s.tokens[r.token].(usedBy := Some(r.deviceUid))])
    else s
  }

  /** Thirty days, in nanoseconds. */
  const MAX_TOKEN_TTL := 30 * 86_400_000_000_000

  class Store {
    var devices: map<string, PublicKey>
    var tokens: map<Digest, Token>

    ghost function Snapshot(): Server
      reads this
    {
      Server(devices, tokens)
    }

    constructor ()
      ensures Snapshot() == Server(map[], map[])
    {
      devices, tokens := map[], map[];
    }

    /** Only the digest of a fresh random token is stored. */
    method IssueEnrollmentToken(digest: Digest, ttl: int, now: int) returns (ok: bool)
      modifies this
      ensures ok <==> 0 < ttl <= MAX_TOKEN_TTL && digest !in old(tokens)
      ensures devices == old(devices)
      ensures tokens == if ok then old(tokens)[digest := Token(None, now + ttl)] else old(tokens)
    {
      if ttl <= 0 || ttl > MAX_TOKEN_TTL || digest in tokens {
        return false;
      }
      tokens := tokens[digest := Token(None, now + ttl)];
      return true;
    }

    /** Token and device change together or not at all. */
    method Enroll(r: Request, now: int) returns (result: EnrollResult)
      modifies this
      ensures result == EnrollAnswer(old(Snapshot()), r, now)
      ensures Snapshot() == AfterEnroll(old(Snapshot()), r, now)
    {
      if !ValidRequest(r) {
        return InvalidRequest;
      }
      if r.token !in tokens {
        return BadToken;
      }
      var row := tokens[r.token];
      if row.usedBy.Some? || now > row.expiresAt {
        return BadToken;
      }
      if r.deviceUid in devices {
        return DeviceExists;
      }
      devices := devices[r.deviceUid := r.publicKey];
      tokens := tokens[r.token := row.(usedBy := Some(r.deviceUid))];
      return Enrolled;
    }
  }

  /* ----- endpoint ----- */

  datatype Disk = Disk(key: Option<Secret>, registration: Option<string>)

  /** Both halves or nothing. */
  function LoadExisting(d: Disk): Option<(Secret, string)> {
    if d.key.Some? && d.registration.Some? then Some((d.key.value, d.registration.value)) else None
  }

  /** What the agent process is doing. It carries the request it is working on. */
  datatype Phase =
    | Off
    | Generated(request: Request)
    | KeyStored(request: Request)
    | Waiting(request: Request)
    | Granted(request: Request)
    | Failed(request: Request)
    | Running

  datatype Step =
    | IssueToken(digest: Digest, expiresAt: int)
    | ForeignEnroll(foreign: Request, now: int)      // some other endpoint's request
    | Start(fresh': Request)
    | StoreKey
    | Send
    | ServerProcesses(request: Request, now: int)    // any of this agent's requests, at any time
    | ReplyOk
    | ReplyError                                     // refused, timed out, or the reply was lost
    | ClearKey(succeeds: bool)
    | SaveRegistration
    | Crash

  /** `wire` holds the agent's requests, `granted` those the server enrolled; `attempt` is the
      request whose key was stored last and not cleared; `created` lists token and device of every
      enrollment. The last three are history. */
  datatype System = System(
    server: Server, disk: Disk, phase: Phase, wire: set<Request>, granted: set<Request>,
    used: set<Secret>, attempt: Option<Request>, created: seq<(Digest, string)>)

  predicate Enabled(s: System, step: Step) {
    match step
    case IssueToken(digest, _) => digest !in s.server.tokens
    case ForeignEnroll(_, _) => true
    case Start(r) => s.phase.Off? && r.publicKey.secret !in s.used
    case StoreKey => s.phase.Generated?
    case Send => s.phase.KeyStored?
    case ServerProcesses(r, _) => r in s.wire
    case ReplyOk => s.phase.Waiting? && s.phase.request in s.granted
    case ReplyError => s.phase.Waiting?
    case ClearKey(_) => s.phase.Failed?
    case SaveRegistration => s.phase.Granted?
    case Crash => true
  }

  function ServerStep(s: System, r: Request, now: int): System {
    if EnrollAnswer(s.server, r, now).Enrolled?
    then s.(server := AfterEnroll(s.server, r, now), created := s.created + [(r.token, r.deviceUid)])
    else s
  }

  function Next(s: System, step: Step): System
    requires Enabled(s, step)
  {
    match step
    case IssueToken(digest, expiresAt) =>
      s.(server := s.server.(tokens := s.server.tokens[digest := Token(None, expiresAt)]))
    case ForeignEnroll(r, now) => ServerStep(s, r, now)
    case Start(r) =>
      if LoadExisting(s.disk).Some? then s.(phase := Running)
      else s.(phase := Generated(r), used := s.used + {r.publicKey.secret})
    case StoreKey =>
      s.(phase := KeyStored(s.phase.request), disk := s.disk.(key := Some(s.phase.request.publicKey.secret)),
         attempt := Some(s.phase.request))
    case Send => s.(phase := Waiting(s.phase.request), wire := s.wire + {s.phase.request})
    case ServerProcesses(r, now) =>
      ServerStep(s, r, now).(granted := if EnrollAnswer(s.server, r, now).Enrolled? then s.granted + {r} else s.granted)
    case ReplyOk => s.(phase := Granted(s.phase.request))
    case ReplyError => s.(phase := Failed(s.phase.request))
    case ClearKey(succeeds) =>
      if succeeds then s.(phase := Off, disk := s.disk.(key := None), attempt := None) else s.(phase := Off)
    case SaveRegistration => s.(phase := Running, disk := s.disk.(registration := Some(s.phase.request.deviceUid)))
    case Crash => s.(phase := Off)
  }

  ghost predicate Runs(s: System, steps: seq<Step>)
    decreases |steps|, 0
  {
    steps == [] || (Runs(s, steps[..|steps| - 1]) && Enabled(Final(s, steps[..|steps| - 1]), steps[|steps| - 1]))
  }

  ghost function Final(s: System, steps: seq<Step>): System
    requires Runs(s, steps)
    decreases |steps|, 1
  {
    if steps == [] then s else Next(Final(s, steps[..|steps| - 1]), steps[|steps| - 1])
  }

  lemma RunsAppend(s: System, steps: seq<Step>, last: Step)
    requires Runs(s, steps) && Enabled(Final(s, steps), last)
    ensures Runs(s, steps + [last]) && Final(s, steps + [last]) == Next(Final(s, steps), last)
  {
    assert (steps + [last])[..|steps|] == steps;
  }

  /** A fresh install, against any server. */
  predicate FreshInstall(s: System) {
    && s.disk == Disk(None, None) && s.phase.Off? && s.wire == {} && s.granted == {}
    && s.used == {} && s.attempt.None? && s.created == []
  }

  predicate Registered(s: System, r: Request) {
    r.deviceUid in s.server.devices && s.server.devices[r.deviceUid] == r.publicKey
  }

  /** No token and no device identifier appears twice. */
  ghost predicate AllDifferent(created: seq<(Digest, string)>) {
    forall i, j :: 0 <= i < j < |created| ==> created[i].0 != created[j].0 && created[i].1 != created[j].1
  }

  predicate Spent(server: Server, token: Digest, uid: string) {
    token in server.tokens && server.tokens[token].usedBy == Some(uid) && uid in server.devices
  }

  ghost predicate TokensSpentOnce(s: System) {
    && AllDifferent(s.created)
    && (forall i :: 0 <= i < |s.created| ==> Spent(s.server, s.created[i].0, s.created[i].1))
  }

  ghost predicate AgentInv(s: System) {
    && (forall r :: r in s.granted ==> Registered(s, r))
    && (s.phase.Granted? ==> s.phase.request in s.granted)
    && (s.phase.KeyStored? || s.phase.Waiting? || s.phase.Granted? || s.phase.Failed? ==>
          s.attempt == Some(s.phase.request))
    && (s.phase.Generated? || s.phase.KeyStored? || s.phase.Waiting? || s.phase.Granted? || s.phase.Failed? ==>
          s.disk.registration.None? && s.phase.request.publicKey.secret in s.used)
    && s.disk.key == (if s.attempt.Some? then Some(s.attempt.value.publicKey.secret) else None)
    && (s.disk.registration.Some? ==>
          s.attempt.Some? && s.attempt.value.deviceUid == s.disk.registration.value && Registered(s, s.attempt.value))
  }

  /** Requests on the wire carry keys of their own. */
  ghost predicate KeyInv(s: System) {
    && (forall r :: r in s.wire ==> r.publicKey.secret in s.used)
    && (s.attempt.Some? ==> s.attempt.value.publicKey.secret in s.used)
    && (s.phase.Generated? ==>
          (forall r :: r in s.wire ==> r.publicKey != s.phase.request.publicKey)
          && (s.attempt.Some? ==> s.attempt.value.publicKey != s.phase.request.publicKey))
    && (forall r :: r in s.wire && s.attempt.Some? && r.publicKey == s.attempt.value.publicKey ==> r == s.attempt.value)
  }

  ghost predicate Inv(s: System) {
    TokensSpentOnce(s) && AgentInv(s) && KeyInv(s)
  }

  lemma ServerStepInv(s: System, r: Request, now: int)
    requires Inv(s)
    ensures Inv(ServerStep(s, r, now))
    ensures EnrollAnswer(s.server, r, now).Enrolled? ==> Registered(ServerStep(s, r, now), r)
  {
    ServerTokens(s, r, now);
    RegisteredStays(s, r, now);
    var s' := ServerStep(s, r, now);
    assert s' == s.(server := s'.server, created := s'.created);
  }

  lemma RegisteredStays(s: System, r: Request, now: int)
    ensures forall q :: Registered(s, q) ==> Registered(ServerStep(s, r, now), q)
  {
  }

  lemma ServerTokens(s: System, r: Request, now: int)
    requires TokensSpentOnce(s)
    ensures TokensSpentOnce(ServerStep(s, r, now))
  {
    if EnrollAnswer(s.server, r, now).Enrolled? {
      forall i | 0 <= i < |s.created|
        ensures s.created[i].0 != r.token && s.created[i].1 != r.deviceUid
        ensures Spent(AfterEnroll(s.server, r, now), s.created[i].0, s.created[i].1)
      {
        SpentStays(s.server, r, now, s.created[i].0, s.created[i].1);
      }
      assert Spent(AfterEnroll(s.server, r, now), r.token, r.deviceUid);
      OneMoreDifferent(s.created, r.token, r.deviceUid);
    }
  }

  lemma SpentStays(server: Server, r: Request, now: int, token: Digest, uid: string)
    requires EnrollAnswer(server, r, now).Enrolled? && Spent(server, token, uid)
    ensures token != r.token && uid != r.deviceUid && Spent(AfterEnroll(server, r, now), token, uid)
  {
  }

  lemma OneMoreDifferent(created: seq<(Digest, string)>, token: Digest, uid: string)
    requires AllDifferent(created)
    requires forall i :: 0 <= i < |created| ==> created[i].0 != token && created[i].1 != uid
    ensures AllDifferent(created + [(token, uid)])
  {
  }

  lemma InvStep(s: System, step: Step)
    requires Inv(s) && Enabled(s, step)
    ensures Inv(Next(s, step))
  {
    match step
    case ForeignEnroll(r, now) => ServerStepInv(s, r, now);
    case ServerProcesses(r, now) => ServerProcessesInv(s, r, now);
    case _ =>
      TokensStep(s, step);
      AgentInvStep(s, step);
      KeyInvStep(s, step);
  }

  lemma ServerProcessesInv(s: System, r: Request, now: int)
    requires Inv(s) && r in s.wire
    ensures Inv(Next(s, ServerProcesses(r, now)))
  {
    ServerStepInv(s, r, now);
    var served := ServerStep(s, r, now);
    var s' := Next(s, ServerProcesses(r, now));
    assert s' == served.(granted := s'.granted);
  }

  lemma TokensStep(s: System, step: Step)
    requires TokensSpentOnce(s) && Enabled(s, step) && !step.ForeignEnroll? && !step.ServerProcesses?
    ensures TokensSpentOnce(Next(s, step))
  {
  }

  lemma AgentInvStep(s: System, step: Step)
    requires AgentInv(s) && Enabled(s, step) && !step.ForeignEnroll? && !step.ServerProcesses?
    ensures AgentInv(Next(s, step))
  {
    assert forall r :: Registered(s, r) ==> Registered(Next(s, step), r);
  }

  lemma KeyInvStep(s: System, step: Step)
    requires AgentInv(s) && KeyInv(s) && Enabled(s, step) && !step.ForeignEnroll? && !step.ServerProcesses?
    ensures KeyInv(Next(s, step))
  {
  }

  lemma {:induction false} InvOverRuns(s: System, steps: seq<Step>)
    requires Inv(s) && Runs(s, steps)
    ensures Inv(Final(s, steps))
  {
    if steps != [] {
      InvOverRuns(s, steps[..|steps| - 1]);
      InvStep(Final(s, steps[..|steps| - 1]), steps[|steps| - 1]);
    }
  }

  /** Main theorem. From a fresh install, with a crash allowed between any two steps: an identity
      that loads is one the server knows, with that key's public half; a registration never exists
      without its key; and every enrollment token yields at most one device, every device
      identifier at most one enrollment. */
  lemma LoadedIdentityIsRegistered(s: System, steps: seq<Step>)
    requires FreshInstall(s) && Runs(s, steps)
    ensures var end := Final(s, steps);
            && (LoadExisting(end.disk).Some? ==>
                  var (secret, uid) := LoadExisting(end.disk).value;
                  uid in end.server.devices && end.server.devices[uid] == PublicOf(secret))
            && (end.disk.registration.Some? ==> end.disk.key.Some?)
            && TokensSpentOnce(end)
  {
    InvOverRuns(s, steps);
    var end := Final(s, steps);
    if end.attempt.Some? {
      var key := end.attempt.value.publicKey;
      assert key == PublicOf(key.secret);
    }
  }

  /** The server enrolls at step `i`: a complete request, under a token that was issued, unspent and
      unexpired then, for a device identifier not yet taken. */
  ghost predicate EnrolledAt(s: System, steps: seq<Step>, i: nat, r: Request, now: int) {
    && i < |steps| && (steps[i] == ServerProcesses(r, now) || steps[i] == ForeignEnroll(r, now))
    && Runs(s, steps[..i])
    && var server := Final(s, steps[..i]).server;
    && r.token in server.tokens && server.tokens[r.token].usedBy.None? && now <= server.tokens[r.token].expiresAt
    && r.deviceUid !in server.devices
    && 8 <= ByteLen(TrimSpace(r.deviceUid)) <= 128 && TrimSpace(r.hostname) != "" && ByteLen(r.hostname) <= 255
    && (r.keyProtection == "software" || r.keyProtection == "tpm" || r.keyProtection == "windows-cert-store")
    && TrimSpace(r.osName) != "" && TrimSpace(r.osVersion) != "" && TrimSpace(r.agentVersion) != ""
    && ByteLen(r.osName) <= 128 && ByteLen(r.osVersion) <= 128 && ByteLen(r.agentVersion) <= 128
  }

  ghost predicate WasEnrolled(s: System, steps: seq<Step>, token: Digest, uid: string) {
    exists i: nat, r, now :: EnrolledAt(s, steps, i, r, now) && r.token == token && r.deviceUid == uid
  }

  lemma EnrolledEarlier(s: System, steps: seq<Step>, token: Digest, uid: string)
    requires steps != [] && WasEnrolled(s, steps[..|steps| - 1], token, uid)
    ensures WasEnrolled(s, steps, token, uid)
  {
    var init := steps[..|steps| - 1];
    var i: nat, r, now :| EnrolledAt(s, init, i, r, now) && r.token == token && r.deviceUid == uid;
    assert init[..i] == steps[..i] && init[i] == steps[i];
    assert EnrolledAt(s, steps, i, r, now);
  }

  lemma EnrolledNow(s: System, steps: seq<Step>, r: Request, now: int)
    requires steps != [] && Runs(s, steps)
    requires steps[|steps| - 1] == ServerProcesses(r, now) || steps[|steps| - 1] == ForeignEnroll(r, now)
    requires EnrollAnswer(Final(s, steps[..|steps| - 1]).server, r, now).Enrolled?
    ensures WasEnrolled(s, steps, r.token, r.deviceUid)
  {
    assert EnrolledAt(s, steps, |steps| - 1, r, now);
  }

  predicate ServerHandles(step: Step, r: Request, now: int) {
    step == ServerProcesses(r, now) || step == ForeignEnroll(r, now)
  }

  /** A step adds at most one enrollment, and only when the server grants it. */
  lemma CreatedStep(s: System, step: Step) returns (r: Request, now: int)
    requires Enabled(s, step)
    ensures s.created <= Next(s, step).created
    ensures |s.created| < |Next(s, step).created| ==>
              && ServerHandles(step, r, now) && EnrollAnswer(s.server, r, now).Enrolled?
              && Next(s, step).created == s.created + [(r.token, r.deviceUid)]
  {
    match step
    case ServerProcesses(request, at) => r, now := request, at;
    case ForeignEnroll(request, at) => r, now := request, at;
    case _ =>
      r, now := Request(0, "", PublicOf(0), "", "", "", "", ""), 0;
  }

  /** Every enrollment of every run had its grounds: a complete request and a token that was issued,
      unspent and unexpired at that step. */
  lemma {:induction false} EnrollmentsWereGranted(s: System, steps: seq<Step>, k: nat)
    requires s.created == [] && Runs(s, steps) && k < |Final(s, steps).created|
    ensures WasEnrolled(s, steps, Final(s, steps).created[k].0, Final(s, steps).created[k].1)
  {
    var init, last := steps[..|steps| - 1], steps[|steps| - 1];
    var created := Final(s, init).created;
    var r, now := CreatedStep(Final(s, init), last);
    if k < |created| {
      EnrollmentsWereGranted(s, init, k);
      EnrolledEarlier(s, steps, created[k].0, created[k].1);
    } else {
      EnrolledNow(s, steps, r, now);
    }
  }

  /** Step `i` writes the key of request `r` to disk. */
  ghost predicate StoresKeyOf(s: System, steps: seq<Step>, i: nat, r: Request)
    requires i < |steps|
  {
    steps[i] == StoreKey && Runs(s, steps[..i]) && Final(s, steps[..i]).phase == Generated(r)
  }

  /** From step `i` on nothing replaces or clears the key. */
  predicate KeyUntouched(steps: seq<Step>, i: nat) {
    forall j :: i < j < |steps| ==> steps[j] != StoreKey && steps[j] != ClearKey(true)
  }

  ghost predicate StoredAndKept(s: System, steps: seq<Step>, r: Request) {
    exists i :: 0 <= i < |steps| && StoresKeyOf(s, steps, i, r) && KeyUntouched(steps, i)
  }

  lemma StoredEarlier(s: System, steps: seq<Step>, r: Request)
    requires steps != [] && StoredAndKept(s, steps[..|steps| - 1], r)
    requires steps[|steps| - 1] != StoreKey && steps[|steps| - 1] != ClearKey(true)
    ensures StoredAndKept(s, steps, r)
  {
    var init := steps[..|steps| - 1];
    var i :| 0 <= i < |init| && StoresKeyOf(s, init, i, r) && KeyUntouched(init, i);
    assert init[..i] == steps[..i] && StoresKeyOf(s, steps, i, r) && KeyUntouched(steps, i);
  }

  lemma StoredLast(s: System, steps: seq<Step>, r: Request)
    requires steps != [] && Runs(s, steps) && steps[|steps| - 1] == StoreKey
    ensures StoredAndKept(s, steps, r) <==> Final(s, steps[..|steps| - 1]).phase == Generated(r)
  {
    var n := |steps| - 1;
    assert KeyUntouched(steps, n);
    if Final(s, steps[..n]).phase == Generated(r) {
      assert StoresKeyOf(s, steps, n, r);
    }
  }

  lemma KeptSplits(s: System, steps: seq<Step>, r: Request)
    requires steps != [] && StoredAndKept(s, steps, r) && steps[|steps| - 1] != StoreKey
    ensures StoredAndKept(s, steps[..|steps| - 1], r) && steps[|steps| - 1] != ClearKey(true)
  {
    var init := steps[..|steps| - 1];
    var i :| 0 <= i < |steps| && StoresKeyOf(s, steps, i, r) && KeyUntouched(steps, i);
    assert init[..i] == steps[..i] && StoresKeyOf(s, init, i, r) && KeyUntouched(init, i);
  }

  lemma {:induction false} AttemptIsHistory(s: System, steps: seq<Step>, r: Request)
    requires s.attempt.None? && Runs(s, steps)
    ensures Final(s, steps).attempt == Some(r) <==> StoredAndKept(s, steps, r)
  {
    if steps != [] {
      var init, last := steps[..|steps| - 1], steps[|steps| - 1];
      AttemptIsHistory(s, init, r);
      if last == StoreKey {
        StoredLast(s, steps, r);
      } else {
        if StoredAndKept(s, steps, r) {
          KeptSplits(s, steps, r);
        }
        if StoredAndKept(s, init, r) && last != ClearKey(true) {
          StoredEarlier(s, steps, r);
        }
      }
    }
  }

  /** When the server processes one of the agent's requests, its private key is on disk if and only
      if some step of the run stored it and no later step stored another key or cleared it. */
  lemma KeyOnDiskAtRegistrationIff(s: System, steps: seq<Step>, r: Request)
    requires FreshInstall(s) && Runs(s, steps) && r in Final(s, steps).wire
    ensures Final(s, steps).disk.key == Some(r.publicKey.secret) <==> StoredAndKept(s, steps, r)
  {
    InvOverRuns(s, steps);
    AttemptIsHistory(s, steps, r);
    var end := Final(s, steps);
    if end.attempt.Some? && end.attempt.value.publicKey.secret == r.publicKey.secret {
      assert PublicOf(r.publicKey.secret) == r.publicKey;
      assert end.attempt.value.publicKey == r.publicKey;
    }
  }

  /** In particular it is on disk whenever the agent is still waiting for that request, which is
      what storing the key before sending is for. */
  lemma KeyOnDiskWhileWaiting(s: System, steps: seq<Step>)
    requires FreshInstall(s) && Runs(s, steps) && Final(s, steps).phase.Waiting?
    ensures var end := Final(s, steps); end.disk.key == Some(end.phase.request.publicKey.secret)
  {
    InvOverRuns(s, steps);
  }

  const BLANK_SYSTEM := System(Server(map[], map[]), Disk(None, None), Off, {}, {}, {}, None, [])

  /** The agent times out and clears its key; the server processes the request after that. */
  function LateRun(r: Request): seq<Step> {
    [IssueToken(r.token, 0), Start(r), StoreKey, Send, ReplyError, ClearKey(true), ServerProcesses(r, 0)]
  }

  /** The run up to the moment the agent gives up waiting. */
  lemma LateRunUntilTimeout(r: Request, s: System)
    requires s == BLANK_SYSTEM.(server := Server(map[], map[r.token := Token(None, 0)]), wire := {r},
                                used := {r.publicKey.secret}, phase := Failed(r),
                                disk := Disk(Some(r.publicKey.secret), None), attempt := Some(r))
    ensures Runs(BLANK_SYSTEM, LateRun(r)[..5]) && Final(BLANK_SYSTEM, LateRun(r)[..5]) == s
  {
    var st := LateRun(r);
    assert st[..0] == [] && st[..0] + [st[0]] == st[..1] && st[..1] + [st[1]] == st[..2];
    assert st[..2] + [st[2]] == st[..3] && st[..3] + [st[3]] == st[..4] && st[..4] + [st[4]] == st[..5];
    RunsAppend(BLANK_SYSTEM, st[..0], st[0]);
    RunsAppend(BLANK_SYSTEM, st[..1], st[1]);
    RunsAppend(BLANK_SYSTEM, st[..2], st[2]);
    RunsAppend(BLANK_SYSTEM, st[..3], st[3]);
    RunsAppend(BLANK_SYSTEM, st[..4], st[4]);
    assert Final(BLANK_SYSTEM, st[..5]).wire == {r} && Final(BLANK_SYSTEM, st[..5]).used == {r.publicKey.secret};
  }

  /** For every valid request there is a run that ends with its device registered and no private key
      left: storing the key first does not rule out a device record that can never authenticate. */
  lemma LateProcessingOrphansDevice(r: Request)
    requires ValidRequest(r)
    ensures FreshInstall(BLANK_SYSTEM) && Runs(BLANK_SYSTEM, LateRun(r))
    ensures Registered(Final(BLANK_SYSTEM, LateRun(r)), r) && Final(BLANK_SYSTEM, LateRun(r)).disk.key.None?
  {
    var s := BLANK_SYSTEM.(server := Server(map[], map[r.token := Token(None, 0)]), wire := {r},
                           used := {r.publicKey.secret}, phase := Failed(r),
                           disk := Disk(Some(r.publicKey.secret), None), attempt := Some(r));
    LateRunUntilTimeout(r, s);
    var st := LateRun(r);
    assert st[..5] + [st[5]] == st[..6] && st[..6] + [st[6]] == st;
    RunsAppend(BLANK_SYSTEM, st[..5], st[5]);
    RunsAppend(BLANK_SYSTEM, st[..6], st[6]);
  }

  /** The agent process. `answer` is what the server call returned; `stored`, `saved` and `cleared`
      say whether the local writes worked. */
  class Endpoint {
    var key: Option<Secret>
    var registration: Option<string>

    ghost function OnDisk(): Disk
      reads this
    {
      Disk(key, registration)
    }

    constructor ()
      ensures OnDisk() == Disk(None, None)
    {
      key, registration := None, None;
    }

    method Load() returns (identity: Option<(Secret, string)>)
      ensures identity == LoadExisting(OnDisk())
      ensures identity.None? <==> key.None? || registration.None?
    {
      match (key, registration)
      case (Some(secret), Some(uid)) => identity := Some((secret, uid));
      case (Some(_), None) => identity := None;
      case (None, Some(_)) => identity := None;
      case (None, None) => identity := None;
    }

    /** `enroll`: success leaves a loadable identity made of the generated key and the answered
        identifier; failure never leaves a registration that was not there, and a key that cannot be
        stored ends the attempt before anything is sent. */
    method Enroll(secret: Secret, stored: bool, answer: Option<string>, saved: bool, cleared: bool)
      returns (ok: bool, sent: bool)
      modifies this
      ensures sent <==> stored
      ensures ok <==> stored && answer.Some? && saved
      ensures ok ==> LoadExisting(OnDisk()) == Some((secret, answer.value))
      ensures !ok ==> registration == old(registration)
      ensures !stored ==> key == old(key)
      ensures stored && answer.None? ==> key == if cleared then None else Some(secret)
      ensures stored && answer.Some? ==> key == Some(secret)
    {
      if !stored {
        return false, false;
      }
      key := Some(secret);
      if answer.None? {
        if cleared {
          key := None;
        }
        return false, true;
      }
      if !saved {
        return false, true;
      }
      registration := answer;
      return true, true;
    }
  }
}
