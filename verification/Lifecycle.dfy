/** What an evaluation does to stored state (backend/internal/trust/evaluator.go,
    backend/internal/session/store.go, backend/internal/incident/incident.go): the session's status,
    the events its sensitivity is read from, and the incident kept for it.

    Evaluations of the same session may run at once. Each statement they send to the database is one
    step here, and the theorems are about every sequence of steps. */
module Lifecycle {
  import opened Common
  import opened Risk
  import R = RiskCodes
  import P = Policies
  import L = Pipeline
  import S = Sessions

  /** A printed UUID. */
  type Uuid = s: string | |s| == 36 witness "00000000-0000-0000-0000-000000000000"

  datatype Session = Session(user: nat, status: S.Status, endedAt: Option<int>)

  /** An event row: the session it was correlated to, and the sensitivity of its resource if it has one. */
  datatype EventRow = EventRow(session: Option<Uuid>, resource: Option<Sensitivity>)

  datatype IncidentStatus = Open | Investigating | Contained | Resolved | FalsePositive

  datatype Incident = Incident(
    id: Uuid, severity: Level, status: IncidentStatus, user: nat, device: nat, session: Uuid,
    peakRisk: int, openedAt: int, updatedAt: int, closedAt: Option<int>)

  /** Incidents are unique by key. */
  datatype State = State(sessions: map<Uuid, Session>, events: seq<EventRow>, incidents: map<string, Incident>)

  datatype Step =
    | Begin(session: Uuid, user: nat)
    | Record(row: EventRow)
    | Apply(session: Uuid, decision: P.Decision)
    | End(session: Uuid, user: nat, now: int)
    | Escalate(session: Uuid, user: nat, device: nat, newId: Uuid, severity: Level, risk: int, now: int)
    | SetStatus(incident: Uuid, status: IncidentStatus, now: int)

  const Empty := State(map[], [], map[])

  /* ----- the statements ----- */

  /** The status a decision asks for; most decisions ask for none. */
  function Verdict(d: P.Decision): Option<S.Status> {
    match d
    case Restrict => Some(S.Restricted)
    case Isolate => Some(S.Isolated)
    case Deny => Some(S.Isolated)
    case _ => None
  }

  /** Only restriction and isolation change a session's status, by severity: from RESTRICT on a session
      is restricted, from ISOLATE on, DENY included, isolated. */
  lemma VerdictFollowsSeverity(d: P.Decision)
    ensures Verdict(d) == if P.Severity(d) < P.Severity(P.Restrict) then None
                          else if P.Severity(d) < P.Severity(P.Isolate) then Some(S.Restricted)
                          else Some(S.Isolated)
    ensures Verdict(P.Restrict) == Some(S.Restricted)
    ensures Verdict(P.Isolate) == Verdict(P.Deny) == Some(S.Isolated)
  {
  }

  /** What `applyDecision` answers: the status it asked for, or else the stored one. */
  function AnsweredStatus(stored: S.Status, d: P.Decision): S.Status {
    if Verdict(d).Some? then Verdict(d).value else stored
  }

  predicate Live(sessions: map<Uuid, Session>, id: Uuid) {
    id in sessions && sessions[id].status != S.Ended
  }

  function AfterApply(sessions: map<Uuid, Session>, id: Uuid, d: P.Decision): map<Uuid, Session> {
    if Live(sessions, id) && Verdict(d).Some?
    then sessions[id := sessions[id].(status := Verdict(d).value)]
    else sessions
  }

  predicate Ends(sessions: map<Uuid, Session>, id: Uuid, user: nat) {
    Live(sessions, id) && sessions[id].user == user
  }

  function AfterEnd(sessions: map<Uuid, Session>, id: Uuid, user: nat, now: int): map<Uuid, Session> {
    if Ends(sessions, id, user)
    then sessions[id := sessions[id].(status := S.Ended, endedAt := Some(now))]
    else sessions
  }

  function Key(session: Uuid): string {
    "session-" + session[..18]
  }

  /** Two sessions share an incident exactly if their identifiers agree in the first 18 characters. */
  lemma KeySharedIff(a: Uuid, b: Uuid)
    ensures Key(a) == Key(b) <==> forall i :: 0 <= i < 18 ==> a[i] == b[i]
  {
    assert Key(a)[8..] == a[..18] && Key(b)[8..] == b[..18];
    assert forall i :: 0 <= i < 18 ==> a[..18][i] == a[i] && b[..18][i] == b[i];
  }

  predicate Closed(s: IncidentStatus) {
    s == Resolved || s == FalsePositive
  }

  /** The row after `INSERT ... ON CONFLICT (incident_key) DO UPDATE`. */
  function Escalated(incidents: map<string, Incident>, e: Step): Incident
    requires e.Escalate?
  {
    if Key(e.session) in incidents then
      var old' := incidents[Key(e.session)];
      old'.(peakRisk := Max(old'.peakRisk, e.risk),
            severity := if e.risk > old'.peakRisk then e.severity else old'.severity,
            updatedAt := e.now)
    else Incident(e.newId, e.severity, Open, e.user, e.device, e.session, e.risk, e.now, e.now, None)
  }

  function Reclassified(i: Incident, status: IncidentStatus, now: int): Incident {
    i.(status := status, updatedAt := now, closedAt := if Closed(status) then Some(now) else None)
  }

  function AfterSetStatus(incidents: map<string, Incident>, id: Uuid, status: IncidentStatus, now: int)
    : map<string, Incident>
  {
    map k | k in incidents :: if incidents[k].id == id then Reclassified(incidents[k], status, now) else incidents[k]
  }

  function Next(s: State, step: Step): State {
    match step
    case Begin(id, user) =>
      if id in s.sessions then s else s.(sessions := s.sessions[id := Session(user, S.Active, None)])
    case Record(row) => s.(events := s.events + [row])
    case Apply(id, d) => s.(sessions := AfterApply(s.sessions, id, d))
    case End(id, user, now) => s.(sessions := AfterEnd(s.sessions, id, user, now))
    case Escalate(session, _, _, _, _, _, _) =>
      s.(incidents := s.incidents[Key(session) := Escalated(s.incidents, step)])
    case SetStatus(id, status, now) => s.(incidents := AfterSetStatus(s.incidents, id, status, now))
  }

  function Final(s: State, steps: seq<Step>): State {
    if steps == [] then s else Next(Final(s, steps[..|steps| - 1]), steps[|steps| - 1])
  }

  /* ----- the session's status over a run ----- */

  ghost predicate EndedBy(steps: seq<Step>, id: Uuid, user: nat) {
    exists i :: 0 <= i < |steps| && steps[i].End? && steps[i].session == id && steps[i].user == user
  }

  /** The status asked for by the last restricting decision about the session. */
  ghost function LastVerdict(steps: seq<Step>, id: Uuid, initial: S.Status): S.Status {
    if steps == [] then initial
    else
      var last := steps[|steps| - 1];
      if last.Apply? && last.session == id && Verdict(last.decision).Some?
      then Verdict(last.decision).value
      else LastVerdict(steps[..|steps| - 1], id, initial)
  }

  lemma EndedByLast(steps: seq<Step>, id: Uuid, user: nat)
    requires steps != []
    ensures var last := steps[|steps| - 1];
            && (EndedBy(steps, id, user)
                <==> EndedBy(steps[..|steps| - 1], id, user) || (last.End? && last.session == id && last.user == user))
  {
    var init := steps[..|steps| - 1];
    if EndedBy(init, id, user) {
      var i :| 0 <= i < |init| && init[i].End? && init[i].session == id && init[i].user == user;
      assert steps[i] == init[i];
    }
    if EndedBy(steps, id, user) {
      var i :| 0 <= i < |steps| && steps[i].End? && steps[i].session == id && steps[i].user == user;
      assert i < |init| ==> init[i] == steps[i];
    }
  }

  /** Main theorem on sessions: after any run, a session is ended exactly if its own user ended it,
      and otherwise has the status of the last decision that restricted it. Nothing else matters. */
  lemma {:induction false} StatusIsItsHistory(s: State, steps: seq<Step>, id: Uuid)
    requires id in s.sessions
    ensures id in Final(s, steps).sessions && Final(s, steps).sessions[id].user == s.sessions[id].user
    ensures Final(s, steps).sessions[id].status
         == (if s.sessions[id].status == S.Ended || EndedBy(steps, id, s.sessions[id].user) then S.Ended
             else LastVerdict(steps, id, s.sessions[id].status))
  {
    if steps != [] {
      StatusIsItsHistory(s, steps[..|steps| - 1], id);
      EndedByLast(steps, id, s.sessions[id].user);
      VerdictNeverOpens(steps[..|steps| - 1], id, s.sessions[id].status);
    }
  }

  lemma {:induction false} VerdictNeverOpens(steps: seq<Step>, id: Uuid, initial: S.Status)
    ensures initial != S.Ended ==> LastVerdict(steps, id, initial) != S.Ended
    ensures initial != S.Active ==> LastVerdict(steps, id, initial) != S.Active
  {
    if steps != [] {
      VerdictNeverOpens(steps[..|steps| - 1], id, initial);
    }
  }

  /** An ended session stays ended; a restricted or isolated one is never active again. */
  lemma {:induction false} NeverReopened(s: State, steps: seq<Step>, id: Uuid)
    requires id in s.sessions
    ensures id in Final(s, steps).sessions
    ensures s.sessions[id].status == S.Ended ==> Final(s, steps).sessions[id].status == S.Ended
    ensures s.sessions[id].status != S.Active ==> Final(s, steps).sessions[id].status != S.Active
  {
    StatusIsItsHistory(s, steps, id);
    VerdictNeverOpens(steps, id, s.sessions[id].status);
  }

  /* ----- the sensitivity a session has reached ----- */

  function RowRank(row: EventRow): nat {
    match row.resource
    case Some(CriticalResource) => 4
    case Some(Sensitive) => 3
    case Some(Internal) => 2
    case _ => 1
  }

  /** `max(...)` over the session's rows; 0 stands for NULL. */
  function MaxRank(events: seq<EventRow>, id: Uuid): nat {
    if events == [] then 0
    else
      var rest, last := MaxRank(events[..|events| - 1], id), events[|events| - 1];
      if last.session == Some(id) then Max(rest, RowRank(last)) else rest
  }

  function Peak(events: seq<EventRow>, id: Uuid): Sensitivity {
    match MaxRank(events, id)
    case 4 => CriticalResource
    case 3 => Sensitive
    case 1 => Public
    case _ => Internal
  }

  ghost predicate Touched(events: seq<EventRow>, id: Uuid, row: EventRow) {
    row in events && row.session == Some(id)
  }

  lemma {:induction false} MaxRankIsMaximum(events: seq<EventRow>, id: Uuid)
    ensures MaxRank(events, id) <= 4
    ensures forall row :: Touched(events, id, row) ==> 1 <= RowRank(row) <= MaxRank(events, id)
    ensures MaxRank(events, id) != 0 ==> exists row :: Touched(events, id, row) && RowRank(row) == MaxRank(events, id)
  {
    if events != [] {
      var init, last := events[..|events| - 1], events[|events| - 1];
      MaxRankIsMaximum(init, id);
      forall row
        ensures Touched(events, id, row) <==> Touched(init, id, row) || (row == last && last.session == Some(id))
      {
        assert events == init + [last];
      }
    }
  }

  /** Without events a session counts as internal; with events it has the sensitivity of the most
      sensitive one, where an event on no resource counts as public. */
  lemma PeakIsMostSensitive(events: seq<EventRow>, id: Uuid)
    ensures (forall row :: !Touched(events, id, row)) ==> Peak(events, id) == Internal
    ensures forall row :: Touched(events, id, row) && row.resource.Some? ==>
                            L.SensitivityRank(row.resource.value) <= L.SensitivityRank(Peak(events, id))
    ensures (exists row :: Touched(events, id, row)) && Peak(events, id) != Public ==>
              exists row :: Touched(events, id, row) && row.resource == Some(Peak(events, id))
  {
    MaxRankIsMaximum(events, id);
  }

  lemma {:induction false} EventsOnlyGrow(s: State, steps: seq<Step>, id: Uuid)
    ensures forall row :: row in s.events ==> row in Final(s, steps).events
    ensures MaxRank(s.events, id) <= MaxRank(Final(s, steps).events, id) <= 4
  {
    MaxRankIsMaximum(s.events, id);
    if steps != [] {
      EventsOnlyGrow(s, steps[..|steps| - 1], id);
      MaxRankIsMaximum(Final(s, steps).events, id);
    }
  }

  ghost predicate Untouched(events: seq<EventRow>, id: Uuid) {
    forall row :: !Touched(events, id, row)
  }

  /** The session has events, all of them on public resources or on none. */
  ghost predicate OnlyPublic(events: seq<EventRow>, id: Uuid) {
    && (exists row :: Touched(events, id, row))
    && (forall row :: Touched(events, id, row) ==> row.resource.None? || row.resource == Some(Public))
  }

  /** The session touched a sensitive or critical resource. */
  ghost predicate Reached(events: seq<EventRow>, id: Uuid) {
    exists row :: Touched(events, id, row)
                  && (row.resource == Some(Sensitive) || row.resource == Some(CriticalResource))
  }

  /** What the stored events say drops in one case only: a session without events gets its first, and
      none of them is on an internal or more sensitive resource. */
  lemma StoredPeakDropsIff(s: State, steps: seq<Step>, id: Uuid)
    ensures var later := Final(s, steps).events;
            L.SensitivityRank(Peak(later, id)) < L.SensitivityRank(Peak(s.events, id))
            <==> Untouched(s.events, id) && OnlyPublic(later, id)
  {
    var later := Final(s, steps).events;
    EventsOnlyGrow(s, steps, id);
    UntouchedIff(s.events, id);
    UntouchedIff(later, id);
    OnlyPublicIff(later, id);
  }

  lemma ReachedIff(events: seq<EventRow>, id: Uuid)
    ensures MaxRank(events, id) >= 3 <==> Reached(events, id)
  {
    MaxRankIsMaximum(events, id);
  }

  /** `peakSensitivity`: a query that fails is answered INTERNAL. */
  function ReadSensitivity(events: seq<EventRow>, id: Uuid, read: bool): Sensitivity {
    if read then Peak(events, id) else Internal
  }

  /** The sensitivity two evaluations use, at two points of a run, drops from the first to the second
      in exactly two cases: the second one's read fails where the first one saw a sensitive or critical
      resource; or it sees only public events where the first one saw none, or failed to read. */
  lemma PeakDropsIff(s: State, steps: seq<Step>, id: Uuid, first: bool, second: bool)
    ensures var later := Final(s, steps).events;
            L.SensitivityRank(ReadSensitivity(later, id, second))
              < L.SensitivityRank(ReadSensitivity(s.events, id, first))
            <==> || (!second && first && Reached(s.events, id))
                 || (second && OnlyPublic(later, id) && (!first || Untouched(s.events, id)))
  {
    var later := Final(s, steps).events;
    ReachedIff(s.events, id);
    MaxRankIsMaximum(s.events, id);
    StoredPeakDropsIff(s, steps, id);
    PublicIff(later, id);
  }

  lemma PublicIff(events: seq<EventRow>, id: Uuid)
    ensures Peak(events, id) == Public <==> OnlyPublic(events, id)
  {
    MaxRankIsMaximum(events, id);
    UntouchedIff(events, id);
    OnlyPublicIff(events, id);
  }

  lemma UntouchedIff(events: seq<EventRow>, id: Uuid)
    ensures MaxRank(events, id) == 0 <==> forall row :: !Touched(events, id, row)
  {
    MaxRankIsMaximum(events, id);
  }

  lemma OnlyPublicIff(events: seq<EventRow>, id: Uuid)
    ensures MaxRank(events, id) <= 1
       <==> forall row :: Touched(events, id, row) ==> row.resource.None? || row.resource == Some(Public)
  {
    MaxRankIsMaximum(events, id);
  }

  lemma {:induction false} StoredPeakIsKept(s: State, steps: seq<Step>, id: Uuid)
    requires Peak(s.events, id) == Sensitive || Peak(s.events, id) == CriticalResource
    ensures L.SensitivityRank(Peak(s.events, id)) <= L.SensitivityRank(Peak(Final(s, steps).events, id))
  {
    EventsOnlyGrow(s, steps, id);
  }

  /** A session that reached a sensitive or critical resource is never again judged below it, in any
      run, exactly by the evaluations whose read of the sensitivity works. */
  lemma {:induction false} ReachedSensitivityIsKept(s: State, steps: seq<Step>, id: Uuid, read: bool)
    requires Peak(s.events, id) == Sensitive || Peak(s.events, id) == CriticalResource
    ensures L.SensitivityRank(Peak(s.events, id))
            <= L.SensitivityRank(ReadSensitivity(Final(s, steps).events, id, read))
       <==> read
  {
    StoredPeakIsKept(s, steps, id);
  }

  ghost predicate Records(step: Step, id: Uuid) {
    step.Record? && step.row.session == Some(id)
  }

  lemma RankStep(s: State, step: Step, id: Uuid)
    ensures MaxRank(Next(s, step).events, id)
         == if Records(step, id) then Max(MaxRank(s.events, id), RowRank(step.row)) else MaxRank(s.events, id)
  {
    if step.Record? {
      assert (s.events + [step.row])[..|s.events|] == s.events;
    }
  }

  ghost predicate SomeRecord(steps: seq<Step>, id: Uuid) {
    exists i :: 0 <= i < |steps| && Records(steps[i], id)
  }

  /** Every event recorded for the session is on no resource. */
  ghost predicate ResourceFree(steps: seq<Step>, id: Uuid) {
    forall i :: 0 <= i < |steps| && Records(steps[i], id) ==> steps[i].row.resource.None?
  }

  lemma SomeRecordLast(init: seq<Step>, last: Step, id: Uuid)
    ensures SomeRecord(init + [last], id) <==> SomeRecord(init, id) || Records(last, id)
    ensures ResourceFree(init + [last], id)
       <==> ResourceFree(init, id) && (Records(last, id) ==> last.row.resource.None?)
  {
    var steps := init + [last];
    assert steps[|init|] == last && forall i :: 0 <= i < |init| ==> steps[i] == init[i];
  }

  lemma {:induction false} RankWithoutResources(s: State, steps: seq<Step>, id: Uuid)
    requires MaxRank(s.events, id) == 0 && ResourceFree(steps, id)
    ensures MaxRank(Final(s, steps).events, id) == if SomeRecord(steps, id) then 1 else 0
  {
    if steps != [] {
      var init, last := steps[..|steps| - 1], steps[|steps| - 1];
      assert steps == init + [last];
      SomeRecordLast(init, last, id);
      RankWithoutResources(s, init, id);
      RankStep(Final(s, init), last, id);
    }
  }

  /** Neither ingest nor the evaluator's own events name a resource. As long as nothing else writes
      events for a session, it is internal before its first event and public ever after. */
  lemma WithoutResourcesNeverSensitive(s: State, steps: seq<Step>, id: Uuid)
    requires (forall row :: !Touched(s.events, id, row)) && ResourceFree(steps, id)
    ensures Peak(Final(s, steps).events, id) == if SomeRecord(steps, id) then Public else Internal
  {
    UntouchedIff(s.events, id);
    RankWithoutResources(s, steps, id);
  }

  /* ----- the incident over a run ----- */

  /** The risks escalated under a key, in order. */
  ghost function Escalations(steps: seq<Step>, key: string): seq<int> {
    if steps == [] then []
    else
      var init, last := Escalations(steps[..|steps| - 1], key), steps[|steps| - 1];
      if last.Escalate? && Key(last.session) == key then init + [last.risk] else init
  }

  /** Every escalation carries the band of its risk, as `Evaluate` sends it. */
  ghost predicate Banded(steps: seq<Step>, t: Thresholds) {
    forall i :: 0 <= i < |steps| && steps[i].Escalate? ==> steps[i].severity == LevelOf(t, steps[i].risk)
  }

  ghost predicate IsMaximum(m: int, s: seq<int>) {
    m in s && forall x :: x in s ==> x <= m
  }

  ghost predicate IncidentFits(i: Incident, escalations: seq<int>, t: Thresholds) {
    IsMaximum(i.peakRisk, escalations) && i.severity == LevelOf(t, i.peakRisk)
    && (i.closedAt.Some? <==> Closed(i.status))
  }

  lemma MaximumGrows(m: int, s: seq<int>, x: int)
    requires IsMaximum(m, s)
    ensures IsMaximum(Max(m, x), s + [x])
  {
    assert forall y :: y in s + [x] <==> y in s || y == x;
  }

  /** Main theorem on incidents: an incident exists exactly under the keys that were escalated, its
      peak is the greatest risk escalated, its severity is the band of that peak, and it has a
      closing time exactly in the closed statuses. */
  lemma {:induction false} IncidentIsItsHistory(steps: seq<Step>, key: string, t: Thresholds)
    requires Banded(steps, t)
    ensures key in Final(Empty, steps).incidents <==> Escalations(steps, key) != []
    ensures key in Final(Empty, steps).incidents ==>
              IncidentFits(Final(Empty, steps).incidents[key], Escalations(steps, key), t)
  {
    if steps != [] {
      var init, last := steps[..|steps| - 1], steps[|steps| - 1];
      assert Banded(init, t) by {
        assert forall i :: 0 <= i < |init| ==> init[i] == steps[i];
      }
      IncidentIsItsHistory(init, key, t);
      var before, risks := Final(Empty, init).incidents, Escalations(init, key);
      if last.Escalate? && Key(last.session) == key {
        if key in before {
          MaximumGrows(before[key].peakRisk, risks, last.risk);
        }
      }
    }
  }

  /** The last status set on an incident, with its closing time. */
  ghost function LastSet(steps: seq<Step>, id: Uuid, initial: (IncidentStatus, Option<int>))
    : (IncidentStatus, Option<int>)
  {
    if steps == [] then initial
    else
      var last := steps[|steps| - 1];
      if last.SetStatus? && last.incident == id
      then (last.status, if Closed(last.status) then Some(last.now) else None)
      else LastSet(steps[..|steps| - 1], id, initial)
  }

  /** Only an analyst moves an incident between statuses. In particular escalations, however many
      and however high, never reopen a closed incident, and no second one is opened beside it. */
  lemma {:induction false} OnlyAnalystsSetStatus(s: State, steps: seq<Step>, key: string)
    requires key in s.incidents
    ensures key in Final(s, steps).incidents
    ensures Final(s, steps).incidents[key].id == s.incidents[key].id
    ensures (Final(s, steps).incidents[key].status, Final(s, steps).incidents[key].closedAt)
         == LastSet(steps, s.incidents[key].id, (s.incidents[key].status, s.incidents[key].closedAt))
    ensures Final(s, steps).incidents[key].peakRisk >= s.incidents[key].peakRisk
  {
    if steps != [] {
      OnlyAnalystsSetStatus(s, steps[..|steps| - 1], key);
    }
  }

  /* ----- the evaluation ----- */

  /** Which of the evaluation's writes succeed. */
  datatype Writes = Writes(
    risk: bool, incident: bool, decision: bool, status: bool, riskEvent: bool, decisionEvent: bool)

  datatype Outcome = Outcome(score: int, result: P.Result, incident: Option<Uuid>, applied: S.Status)

  /** What gets escalated, if anything. */
  function Opening(id: Uuid, user: nat, device: nat, newId: Uuid, score: int, t: Thresholds, r: P.Result,
                   writes: Writes, now: int): seq<Step> {
    if r.createIncident && writes.incident
    then [Escalate(id, user, device, newId, LevelOf(t, score), score, now)]
    else []
  }

  function Derived(id: Uuid, writes: Writes): seq<Step> {
    (if writes.riskEvent then [Record(EventRow(Some(id), None))] else [])
    + (if writes.decisionEvent then [Record(EventRow(Some(id), None))] else [])
  }

  /** The statements an evaluation carries out: the incident first, whose failure does not stop it,
      then the session's status, unless recording the decision or applying it fails, then two events. */
  function Statements(id: Uuid, user: nat, device: nat, newId: Uuid, score: int, t: Thresholds, r: P.Result,
                      writes: Writes, now: int): (steps: seq<Step>)
    ensures Banded(steps, t)
  {
    Opening(id, user, device, newId, score, t, r, writes, now)
    + (if writes.decision && writes.status then [Apply(id, r.decision)] + Derived(id, writes) else [])
  }

  /** The inputs as `gather` completes them: the sensitivity as far as it can be read, and no penalty
      for an unfamiliar network before a baseline exists. */
  function Gathered(raw: Inputs, events: seq<EventRow>, id: Uuid, read: bool): Inputs {
    raw.(sensitivity := ReadSensitivity(events, id, read),
         networkFamiliar := !raw.baselineEstablished || raw.networkFamiliar)
  }

  /** The result the active policies give for gathered inputs. */
  ghost function ResultFor(in': Inputs, w: Weights, t: Thresholds, active: seq<P.Policy>): P.Result {
    P.Decide(P.EngineOf(active), L.RequestFor(in', w, t))
  }

  lemma {:induction false} CodeMembers(factors: seq<Factor>, c: Code)
    ensures c in CodesOf(factors) <==> exists f :: f in factors && f.code == c
  {
    if factors != [] {
      var init, last := factors[..|factors| - 1], factors[|factors| - 1];
      CodeMembers(init, c);
      assert factors == init + [last];
      CodesAppend(init, last);
      assert forall f :: f in factors <==> f in init || f == last;
    }
  }

  function Names(factors: seq<Factor>): set<string> {
    set f | f in factors :: Name(f.code)
  }

  lemma SameCodesSameNames(a: seq<Factor>, b: seq<Factor>)
    requires CodesOf(a) == CodesOf(b)
    ensures Names(a) == Names(b)
  {
    NamesWithin(a, b);
    NamesWithin(b, a);
  }

  lemma NamesWithin(a: seq<Factor>, b: seq<Factor>)
    requires CodesOf(a) == CodesOf(b)
    ensures Names(a) <= Names(b)
  {
    forall n | n in Names(a) ensures n in Names(b) {
      var f :| f in a && Name(f.code) == n;
      CodeMembers(a, f.code);
      CodeMembers(b, f.code);
    }
  }

  /** The tables behind the session store, the incident store and the event stream. */
  class Store {
    var sessions: map<Uuid, Session>
    var events: seq<EventRow>
    var incidents: map<string, Incident>

    function Tables(): State
      reads this
    {
      State(sessions, events, incidents)
    }

    constructor ()
      ensures Tables() == Empty
    {
      sessions, events, incidents := map[], [], map[];
    }

    /** `applyDecision`. The status it answers is the stored one, except that on an ended session a
        restricting decision answers what it asked for and stores nothing. */
    method ApplyDecision(id: Uuid, d: P.Decision) returns (status: Option<S.Status>)
      modifies this
      ensures Tables() == Next(old(Tables()), Apply(id, d))
      ensures Verdict(d).Some? ==> status == Verdict(d)
      ensures Verdict(d).None? ==> status == if id in sessions then Some(sessions[id].status) else None
      ensures id in sessions ==>
                (status == Some(sessions[id].status) <==> !(old(sessions[id].status) == S.Ended && Verdict(d).Some?))
    {
      match d {
        case Restrict => status := Some(S.Restricted);
        case Isolate => status := Some(S.Isolated);
        case Deny => status := Some(S.Isolated);
        case _ =>
          status := if id in sessions then Some(sessions[id].status) else None;
          return;
      }
      if id in sessions && sessions[id].status != S.Ended {
        sessions := sessions[id := sessions[id].(status := status.value)];
      }
    }

    /** `End`: only the session's own user may end it. */
    method EndSession(id: Uuid, user: nat, now: int) returns (found: bool)
      modifies this
      ensures Tables() == Next(old(Tables()), End(id, user, now))
      ensures found <==> old(Ends(sessions, id, user))
      ensures found ==> id in sessions && sessions[id].status == S.Ended && sessions[id].endedAt == Some(now)
      ensures !found ==> Tables() == old(Tables())
    {
      found := id in sessions && sessions[id].user == user && sessions[id].status != S.Ended;
      if found {
        sessions := sessions[id := sessions[id].(status := S.Ended, endedAt := Some(now))];
      }
    }

    method RecordEvent(row: EventRow)
      modifies this
      ensures Tables() == Next(old(Tables()), Record(row))
    {
      events := events + [row];
    }

    /** `OpenOrEscalate`. The answer is an open incident exactly when the key had no closed one. */
    method OpenOrEscalate(session: Uuid, user: nat, device: nat, newId: Uuid, severity: Level, risk: int, now: int)
      returns (i: Incident)
      modifies this
      ensures Tables() == Next(old(Tables()), Escalate(session, user, device, newId, severity, risk, now))
      ensures Key(session) in incidents && i == incidents[Key(session)] && i.peakRisk >= risk && i.updatedAt == now
      ensures old(Key(session) !in incidents) ==>
                i == Incident(newId, severity, Open, user, device, session, risk, now, now, None)
      ensures old(Key(session) in incidents) ==>
                var was := old(incidents)[Key(session)];
                && i.(peakRisk := was.peakRisk, severity := was.severity, updatedAt := was.updatedAt) == was
                && i.peakRisk == Max(was.peakRisk, risk)
                && i.severity == (if risk > was.peakRisk then severity else was.severity)
      ensures !Closed(i.status)
         <==> old(Key(session) in incidents ==> !Closed(incidents[Key(session)].status))
    {
      var key := Key(session);
      if key !in incidents {
        i := Incident(newId, severity, Open, user, device, session, risk, now, now, None);
      } else {
        var row := incidents[key];
        i := row.(peakRisk := Max(row.peakRisk, risk),
                  severity := if risk > row.peakRisk then severity else row.severity,
                  updatedAt := now);
      }
      incidents := incidents[key := i];
    }

    /** `SetStatus` of the incident store. */
    method SetIncidentStatus(id: Uuid, status: IncidentStatus, now: int) returns (found: bool)
      modifies this
      ensures Tables() == Next(old(Tables()), SetStatus(id, status, now))
      ensures found <==> exists k :: k in old(incidents) && old(incidents)[k].id == id
      ensures !found ==> Tables() == old(Tables())
    {
      found := exists k :: k in incidents && incidents[k].id == id;
      if found {
        incidents := AfterSetStatus(incidents, id, status, now);
      } else {
        assert AfterSetStatus(incidents, id, status, now) == incidents;
      }
    }

    /** `Evaluate`: gathers, scores, decides, and carries out exactly the statements listed above. `read`
        says whether the sensitivity could be read. It answers nothing when the session is unknown or
        a required write fails. */
    method Evaluate(id: Uuid, device: nat, newId: Uuid, raw: Inputs, w: Weights, t: Thresholds,
                    active: seq<P.Policy>, read: bool, writes: Writes, now: int)
      returns (outcome: Option<Outcome>)
      modifies this
      ensures outcome.Some? <==> old(id in sessions) && writes.risk && writes.decision && writes.status
      ensures !(old(id in sessions) && writes.risk) ==> Tables() == old(Tables())
      ensures var in' := Gathered(raw, old(events), id, read);
              && (old(id in sessions) && writes.risk ==>
                  Tables() == Final(old(Tables()),
                                    Statements(id, old(sessions)[id].user, device, newId, Score(in', w), t,
                                               ResultFor(in', w, t, active), writes, now)))
              && (outcome.Some? ==> outcome.value.score == Score(in', w)
                                    && outcome.value.result == ResultFor(in', w, t, active)
                                    && outcome.value.applied
                                       == AnsweredStatus(old(sessions)[id].status, outcome.value.result.decision))
      ensures outcome.Some? && outcome.value.incident.Some? ==>
                Key(id) in incidents && outcome.value.incident.value == incidents[Key(id)].id
    {
      outcome := None;
      if id !in sessions || !writes.risk {
        return;
      }
      var in' := Gathered(raw, events, id, read);
      var score, level, result := Assess(in', w, t, active);
      ghost var before, user := Tables(), sessions[id].user;
      var incident := None;
      if result.createIncident && writes.incident {
        var i := OpenOrEscalate(id, sessions[id].user, device, newId, level, score, now);
        incident := Some(i.id);
      }
      ghost var opening := Opening(id, user, device, newId, score, t, result, writes, now);
      OpeningRuns(before, id, user, device, newId, score, t, result, writes, now);
      if !writes.decision || !writes.status {
        assert opening + [] == opening;
        return;
      }
      var applied := Enforce(id, result.decision, writes);
      FinalSplits(before, opening, [Apply(id, result.decision)] + Derived(id, writes));
      outcome := Some(Outcome(score, result, incident, applied));
    }

    /** The tail of `Evaluate`: the session's status, then the derived events. */
    method Enforce(id: Uuid, d: P.Decision, writes: Writes) returns (applied: S.Status)
      requires id in sessions
      modifies this
      ensures Tables() == Final(old(Tables()), [Apply(id, d)] + Derived(id, writes))
      ensures incidents == old(incidents)
      ensures applied == AnsweredStatus(old(sessions[id].status), d)
    {
      TailStatements(Tables(), id, d, writes);
      var status := ApplyDecision(id, d);
      if writes.riskEvent {
        RecordEvent(EventRow(Some(id), None));
      }
      if writes.decisionEvent {
        RecordEvent(EventRow(Some(id), None));
      }
      applied := status.value;
    }
  }

  /** The part of `Evaluate` that only computes. */
  method Assess(in': Inputs, w: Weights, t: Thresholds, active: seq<P.Policy>)
    returns (score: int, level: Level, result: P.Result)
    ensures score == Score(in', w) && level == LevelOf(t, score) && result == ResultFor(in', w, t, active)
  {
    var assessment := Risk.Evaluate(in', w, t);
    var engine := P.NewEngine(active);
    var request := P.Request(assessment.score, L.LevelName(assessment.level), Names(assessment.factors),
                             L.SensitivityName(in'.sensitivity), false);
    SameCodesSameNames(assessment.factors, FactorsOf(Signals(in'), w));
    result := P.Evaluate(engine, request);
    score, level := assessment.score, assessment.level;
  }

  lemma OpeningRuns(s: State, id: Uuid, user: nat, device: nat, newId: Uuid, score: int, t: Thresholds, r: P.Result,
                    writes: Writes, now: int)
    ensures Final(s, Opening(id, user, device, newId, score, t, r, writes, now))
         == if r.createIncident && writes.incident
            then Next(s, Escalate(id, user, device, newId, LevelOf(t, score), score, now))
            else s
  {
    FinalOne(s, Escalate(id, user, device, newId, LevelOf(t, score), score, now));
  }

  lemma {:induction false} FinalSplits(s: State, a: seq<Step>, b: seq<Step>)
    ensures Final(s, a + b) == Final(Final(s, a), b)
  {
    if b == [] {
      assert a + b == a;
    } else {
      assert (a + b)[..|a + b| - 1] == a + b[..|b| - 1];
      FinalSplits(s, a, b[..|b| - 1]);
    }
  }

  lemma FinalOne(s: State, step: Step)
    ensures Final(s, [step]) == Next(s, step)
  {
    assert [step][..0] == [];
  }

  lemma TailStatements(s: State, id: Uuid, d: P.Decision, writes: Writes)
    ensures var applied := Next(s, Apply(id, d));
            var first := if writes.riskEvent then Next(applied, Record(EventRow(Some(id), None))) else applied;
            var second := if writes.decisionEvent then Next(first, Record(EventRow(Some(id), None))) else first;
            Final(s, [Apply(id, d)] + Derived(id, writes)) == second
  {
    var step := Record(EventRow(Some(id), None));
    FinalOne(s, Apply(id, d));
    FinalSplits(s, [Apply(id, d)], Derived(id, writes));
    var applied := Next(s, Apply(id, d));
    FinalOne(applied, step);
    FinalOne(Next(applied, step), step);
    FinalSplits(applied, if writes.riskEvent then [step] else [], if writes.decisionEvent then [step] else []);
  }

  /* ----- evaluations within a run ----- */

  /** What one evaluation, all of whose writes work, leaves behind: a session restricted or isolated if
      the decision says so and it had not ended, otherwise with the status it had; and, if the decision
      asks for one, an incident under the session's key whose peak covers the score. */
  lemma EvaluationTakesEffect(s: State, id: Uuid, user: nat, device: nat, newId: Uuid, score: int, t: Thresholds,
                              r: P.Result, writes: Writes, now: int)
    requires id in s.sessions && writes.incident && writes.decision && writes.status
    ensures var after := Final(s, Statements(id, user, device, newId, score, t, r, writes, now));
            && id in after.sessions
            && after.sessions[id].status
               == (if s.sessions[id].status == S.Ended then S.Ended
                   else if P.Severity(r.decision) >= P.Severity(P.Isolate) then S.Isolated
                   else if P.Severity(r.decision) >= P.Severity(P.Restrict) then S.Restricted
                   else s.sessions[id].status)
            && (r.createIncident ==> Key(id) in after.incidents && after.incidents[Key(id)].peakRisk >= score)
            && (!r.createIncident ==> after.incidents == s.incidents)
  {
    var opening := Opening(id, user, device, newId, score, t, r, writes, now);
    FinalSplits(s, opening, [Apply(id, r.decision)] + Derived(id, writes));
    OpeningEffect(s, id, user, device, newId, score, t, r, writes, now);
    TailEffect(Final(s, opening), id, r.decision, writes);
    AppliedStatus(s.sessions, id, r.decision);
  }

  lemma OpeningEffect(s: State, id: Uuid, user: nat, device: nat, newId: Uuid, score: int, t: Thresholds, r: P.Result,
                      writes: Writes, now: int)
    requires writes.incident
    ensures var after := Final(s, Opening(id, user, device, newId, score, t, r, writes, now));
            && after.sessions == s.sessions
            && (r.createIncident ==> Key(id) in after.incidents && after.incidents[Key(id)].peakRisk >= score)
            && (!r.createIncident ==> after.incidents == s.incidents)
  {
    OpeningRuns(s, id, user, device, newId, score, t, r, writes, now);
  }

  lemma TailEffect(s: State, id: Uuid, d: P.Decision, writes: Writes)
    ensures var after := Final(s, [Apply(id, d)] + Derived(id, writes));
            after.sessions == AfterApply(s.sessions, id, d) && after.incidents == s.incidents
  {
    TailStatements(s, id, d, writes);
  }

  lemma AppliedStatus(sessions: map<Uuid, Session>, id: Uuid, d: P.Decision)
    requires id in sessions
    ensures id in AfterApply(sessions, id, d)
    ensures AfterApply(sessions, id, d)[id].status
         == (if sessions[id].status == S.Ended then S.Ended
             else if P.Severity(d) >= P.Severity(P.Isolate) then S.Isolated
             else if P.Severity(d) >= P.Severity(P.Restrict) then S.Restricted
             else sessions[id].status)
  {
    VerdictFollowsSeverity(d);
  }

  /** Before a baseline exists no network counts as unfamiliar; with one, the profile decides. */
  lemma NetworkNeedsBaseline(raw: Inputs, events: seq<EventRow>, id: Uuid, read: bool, w: Weights)
    ensures var in' := Gathered(raw, events, id, read);
            R.Charge(in', UnusualNetwork)
            == if raw.baselineEstablished && raw.networkKnown && !raw.networkFamiliar then Some(12.0) else None
  {
  }

  /** Enforcement sticks: once a restricting decision was applied to an existing session, nothing that
      happens later, decisions to allow included, makes it active again. */
  lemma EnforcementSticks(s: State, before: seq<Step>, id: Uuid, d: P.Decision, after: seq<Step>)
    requires id in Final(s, before).sessions && Verdict(d).Some?
    ensures var last := Final(s, before + [Apply(id, d)] + after).sessions;
            id in last && last[id].status != S.Active
  {
    FinalOne(Final(s, before), Apply(id, d));
    FinalSplits(s, before, [Apply(id, d)]);
    FinalSplits(s, before + [Apply(id, d)], after);
    NeverReopened(Final(s, before + [Apply(id, d)]), after, id);
  }

  /** The events an evaluation records are on no resource, and it records one if it can. */
  lemma StatementsRecord(id: Uuid, user: nat, device: nat, newId: Uuid, score: int, t: Thresholds, r: P.Result,
                         writes: Writes, now: int)
    requires writes.decision && writes.status && (writes.riskEvent || writes.decisionEvent)
    ensures var steps := Statements(id, user, device, newId, score, t, r, writes, now);
            ResourceFree(steps, id) && SomeRecord(steps, id)
  {
    var steps := Statements(id, user, device, newId, score, t, r, writes, now);
    var last := steps[|steps| - 1];
    assert Records(last, id);
  }

  /** An evaluation records events of its own, on no resource. So evaluating a session that had no
      events lowers its sensitivity from internal to public for the evaluations to come. */
  lemma EvaluationLowersUntouchedSession(s: State, id: Uuid, user: nat, device: nat, newId: Uuid, score: int,
                                         t: Thresholds, r: P.Result, writes: Writes, now: int)
    requires forall row :: !Touched(s.events, id, row)
    requires writes.decision && writes.status && (writes.riskEvent || writes.decisionEvent)
    ensures Peak(s.events, id) == Internal
    ensures Peak(Final(s, Statements(id, user, device, newId, score, t, r, writes, now)).events, id) == Public
  {
    UntouchedIff(s.events, id);
    StatementsRecord(id, user, device, newId, score, t, r, writes, now);
    WithoutResourcesNeverSensitive(s, Statements(id, user, device, newId, score, t, r, writes, now), id);
  }

  /** From the sensitivity reached to the decision: once a session has reached a sensitive resource,
      an evaluation at any later point of the run that can read it, with its other inputs no better,
      gives no lower score, no milder decision, and drops no incident or alert. */
  lemma LaterEvaluationsAreNoMilder(s: State, steps: seq<Step>, id: Uuid, a: Inputs, b: Inputs,
                                    first: bool, w: Weights, t: Thresholds)
    requires ValidWeights(w) && ValidThresholds(t)
    requires Peak(s.events, id) == Sensitive || Peak(s.events, id) == CriticalResource
    requires L.AtLeastAsBad(a, b.(sensitivity := a.sensitivity))
    ensures var before, after := Gathered(a, s.events, id, first), Gathered(b, Final(s, steps).events, id, true);
            && Score(before, w) <= Score(after, w)
            && P.Severity(L.DecisionFor(before, w, t).decision) <= P.Severity(L.DecisionFor(after, w, t).decision)
            && (L.DecisionFor(before, w, t).createIncident ==> L.DecisionFor(after, w, t).createIncident)
            && (L.DecisionFor(before, w, t).alertSoc ==> L.DecisionFor(after, w, t).alertSoc)
  {
    StoredPeakIsKept(s, steps, id);
    GatheredNoBetter(a, b, s.events, Final(s, steps).events, id, first);
    L.DecisionIsMonotone(Gathered(a, s.events, id, first), Gathered(b, Final(s, steps).events, id, true), w, t);
  }

  lemma GatheredNoBetter(a: Inputs, b: Inputs, events: seq<EventRow>, later: seq<EventRow>, id: Uuid, first: bool)
    requires L.AtLeastAsBad(a, b.(sensitivity := a.sensitivity))
    requires Peak(events, id) == Sensitive || Peak(events, id) == CriticalResource
    requires L.SensitivityRank(Peak(events, id)) <= L.SensitivityRank(Peak(later, id))
    ensures L.AtLeastAsBad(Gathered(a, events, id, first), Gathered(b, later, id, true))
  {
  }

  /** A failed read takes exactly the points of the resource off the raw score, so the score falls if
      and only if those points are positive and the rest alone does not reach 100 already. */
  lemma FailedReadForgetsResource(raw: Inputs, events: seq<EventRow>, id: Uuid, w: Weights)
    ensures var failed, worked := Gathered(raw, events, id, false), Gathered(raw, events, id, true);
            var points := RawScore(ResourceSignals(Peak(events, id)), w);
            && RawScore(Signals(worked), w) == RawScore(Signals(failed), w) + points
            && (Score(failed, w) < Score(worked, w) <==> points > 0 && RawScore(Signals(failed), w) < 100)
  {
    var failed, worked := Gathered(raw, events, id, false), Gathered(raw, events, id, true);
    L.ResourcePointsAdd(failed, w);
    L.ResourcePointsAdd(worked, w);
    L.OthersIgnoreSensitivity(failed, worked.sensitivity);
    assert failed.(sensitivity := worked.sensitivity) == worked;
    assert RawScore(ResourceSignals(Internal), w) == 0;
  }

  /** And it never makes the decision harsher for a session that reached a sensitive resource. */
  lemma FailedReadIsNeverHarsher(raw: Inputs, events: seq<EventRow>, id: Uuid, w: Weights, t: Thresholds)
    requires ValidWeights(w) && ValidThresholds(t) && Reached(events, id)
    ensures var failed, worked := Gathered(raw, events, id, false), Gathered(raw, events, id, true);
            && P.Severity(L.DecisionFor(failed, w, t).decision) <= P.Severity(L.DecisionFor(worked, w, t).decision)
            && (L.DecisionFor(failed, w, t).createIncident ==> L.DecisionFor(worked, w, t).createIncident)
            && (L.DecisionFor(failed, w, t).alertSoc ==> L.DecisionFor(worked, w, t).alertSoc)
  {
    ReachedIff(events, id);
    MaxRankIsMaximum(events, id);
    L.DecisionIsMonotone(Gathered(raw, events, id, false), Gathered(raw, events, id, true), w, t);
  }
}
