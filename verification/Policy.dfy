/** The policy engine (backend/internal/policy/policy.go), the shipped rule set
    (backend/internal/policy/defaults.go) and policy versions (backend/internal/policy/store.go). */
module Policies {
  import opened Common
  import opened Ordering

  datatype Decision = Allow | AllowMonitor | Verify | StepUpMfa | Restrict | Isolate | Deny

  /** From least to most restrictive. */
  function Severity(d: Decision): nat {
    match d
    case Allow => 0
    case AllowMonitor => 1
    case Verify => 2
    case StepUpMfa => 3
    case Restrict => 4
    case Isolate => 5
    case Deny => 6
  }

  datatype FailMode = FailOpen | FailClosed | FailSafe

  datatype Conditions = Conditions(
    minRisk: Option<int>, maxRisk: Option<int>, levels: seq<string>, sensitivities: seq<string>,
    requireFactors: seq<string>)

  datatype Actions = Actions(decision: Decision, createIncident: bool, alertSoc: bool, message: string)

  datatype Policy = Policy(
    policyId: string, version: int, name: string, priority: int, enabled: bool,
    conditions: Conditions, actions: Actions, failMode: FailMode)

  predicate RiskBound(bound: Option<int>) {
    bound.None? || 0 <= bound.value <= 100
  }

  /** A policy without any condition would match everything. */
  predicate Constrains(c: Conditions) {
    c.minRisk.Some? || c.maxRisk.Some? || c.levels != [] || c.sensitivities != [] || c.requireFactors != []
  }

  /** `Validate`. */
  predicate ValidPolicy(p: Policy) {
    && TrimSpace(p.policyId) != "" && ByteLen(p.policyId) <= 64
    && TrimSpace(p.name) != "" && ByteLen(p.name) <= 128
    && RiskBound(p.conditions.minRisk) && RiskBound(p.conditions.maxRisk)
    && (p.conditions.minRisk.Some? && p.conditions.maxRisk.Some? ==>
          p.conditions.minRisk.value <= p.conditions.maxRisk.value)
    && Constrains(p.conditions)
  }

  /** The score bounds leave room for some score from 0 to 100. */
  ghost predicate Satisfiable(c: Conditions) {
    exists score :: 0 <= score <= 100 && InBounds(c, score)
  }

  predicate InBounds(c: Conditions, score: int) {
    (c.minRisk.Some? ==> c.minRisk.value <= score) && (c.maxRisk.Some? ==> score <= c.maxRisk.value)
  }

  lemma ValidIsSatisfiable(p: Policy)
    requires ValidPolicy(p)
    ensures Satisfiable(p.conditions)
  {
    var c := p.conditions;
    var score := if c.minRisk.Some? then c.minRisk.value else if c.maxRisk.Some? then c.maxRisk.value else 0;
    assert InBounds(c, score);
  }

  /** What a decision is made about. `factors` holds the codes of the raised risk factors. */
  datatype Request = Request(score: int, level: string, factors: set<string>, sensitivity: string, degraded: bool)

  datatype Result = Result(
    decision: Decision, reason: string, policyId: string, policyVersion: int, message: string,
    createIncident: bool, alertSoc: bool, matched: seq<(string, int)>)

  /** `strings.EqualFold` on ASCII text. */
  predicate EqualFold(a: string, b: string) {
    ToUpper(a) == ToUpper(b)
  }

  predicate ContainsFold(haystack: seq<string>, needle: string) {
    exists i :: 0 <= i < |haystack| && EqualFold(haystack[i], needle)
  }

  predicate Matches(c: Conditions, r: Request) {
    && (c.minRisk.Some? ==> c.minRisk.value <= r.score)
    && (c.maxRisk.Some? ==> r.score <= c.maxRisk.value)
    && (c.levels != [] ==> ContainsFold(c.levels, r.level))
    && (c.sensitivities != [] ==> ContainsFold(c.sensitivities, r.sensitivity))
    && (forall i :: 0 <= i < |c.requireFactors| ==> ToUpper(c.requireFactors[i]) in r.factors)
  }

  /** A policy on the score alone matches exactly the scores from its minimum to its maximum. */
  lemma RangeMatches(low: int, high: int, r: Request)
    ensures Matches(Conditions(Some(low), Some(high), [], [], []), r) <==> low <= r.score <= high
    ensures Matches(Conditions(None, None, [], [], []), r)
  {
  }

  predicate IsSensitive(sensitivity: string) {
    EqualFold(sensitivity, "SENSITIVE") || EqualFold(sensitivity, "CRITICAL")
  }

  /* ----- building the engine ----- */

  /** Lower priority number first, ties broken by policy id. */
  predicate PolicyLess(a: Policy, b: Policy) {
    if a.priority != b.priority then a.priority < b.priority else StrLess(a.policyId, b.policyId)
  }

  lemma PolicyLessIsWeakOrder()
    ensures StrictWeakOrder(PolicyLess)
  {
    forall x: Policy ensures !PolicyLess(x, x) {
      StrLessIrreflexive(x.policyId);
    }
    forall x: Policy, y: Policy, z: Policy | PolicyLess(x, y) && PolicyLess(y, z) ensures PolicyLess(x, z) {
      if x.priority == y.priority == z.priority {
        StrLessTransitive(x.policyId, y.policyId, z.policyId);
      }
    }
    forall x: Policy, y: Policy, z: Policy | PolicyLess(x, z) ensures PolicyLess(x, y) || PolicyLess(y, z) {
      StrLessConnected(x.policyId, y.policyId);
      if StrLess(x.policyId, z.policyId) && StrLess(y.policyId, x.policyId) {
        StrLessTransitive(y.policyId, x.policyId, z.policyId);
      }
    }
  }

  function EnabledOnly(ps: seq<Policy>): seq<Policy> {
    if ps == [] then []
    else if ps[|ps| - 1].enabled then EnabledOnly(ps[..|ps| - 1]) + [ps[|ps| - 1]]
    else EnabledOnly(ps[..|ps| - 1])
  }

  function EngineOf(ps: seq<Policy>): seq<Policy> {
    StableSort(EnabledOnly(ps), PolicyLess)
  }

  /** `NewEngine`. */
  method NewEngine(ps: seq<Policy>) returns (engine: seq<Policy>)
    ensures engine == EngineOf(ps) && Sorted(engine, PolicyLess)
    ensures forall i, j :: 0 <= i < j < |engine| ==>
              || engine[i].priority < engine[j].priority
              || (engine[i].priority == engine[j].priority && !StrLess(engine[j].policyId, engine[i].policyId))
    ensures forall p :: p in engine <==> p in ps && p.enabled
  {
    var active := [];
    for i := 0 to |ps|
      invariant active == EnabledOnly(ps[..i])
    {
      assert ps[..i + 1][..i] == ps[..i] && ps[..i + 1][i] == ps[i];
      if ps[i].enabled {
        active := active + [ps[i]];
      }
    }
    assert ps[..|ps|] == ps;
    engine := StableSort(active, PolicyLess);
    PolicyLessIsWeakOrder();
    SortSorts(active, PolicyLess);
    EngineMembers(ps);
  }

  lemma {:induction false} EnabledMembers(ps: seq<Policy>, p: Policy)
    ensures multiset(EnabledOnly(ps))[p] == if p.enabled then multiset(ps)[p] else 0
  {
    if ps != [] {
      EnabledMembers(ps[..|ps| - 1], p);
      assert ps == ps[..|ps| - 1] + [ps[|ps| - 1]];
    }
  }

  /** The engine holds exactly the enabled policies. */
  lemma EngineMembers(ps: seq<Policy>)
    ensures forall p :: p in EngineOf(ps) <==> p in ps && p.enabled
  {
    SortPermutes(EnabledOnly(ps), PolicyLess);
    forall p ensures p in EngineOf(ps) <==> p in ps && p.enabled {
      EnabledMembers(ps, p);
      assert p in EngineOf(ps) <==> p in multiset(EngineOf(ps));
      assert p in ps <==> p in multiset(ps);
    }
  }

  /* ----- the live decision ----- */

  const DEFAULT_RESULT := Result(Allow, "no policy matched; default allow", "", 0, "", false, false, [])

  /** One round of the evaluation loop. */
  function Consider(r: Result, p: Policy, request: Request): Result {
    if !Matches(p.conditions, request) then r
    else
      var noted := r.(matched := r.matched + [(p.policyId, p.version)],
                      createIncident := r.createIncident || p.actions.createIncident,
                      alertSoc := r.alertSoc || p.actions.alertSoc);
      if Severity(p.actions.decision) >= Severity(r.decision)
      then noted.(decision := p.actions.decision, reason := p.name, policyId := p.policyId,
                  policyVersion := p.version, message := p.actions.message)
      else noted
  }

  function Decide(engine: seq<Policy>, request: Request): Result {
    if engine == [] then DEFAULT_RESULT
    else Consider(Decide(engine[..|engine| - 1], request), engine[|engine| - 1], request)
  }

  ghost predicate Matching(ps: seq<Policy>, request: Request, p: Policy) {
    p in ps && Matches(p.conditions, request)
  }

  /** The decision is the maximum severity over all matching policies (ALLOW when none matches), and
      the incident and alert flags are the disjunction over them. */
  ghost predicate MostRestrictive(ps: seq<Policy>, request: Request, r: Result) {
    && (forall p :: Matching(ps, request, p) ==> Severity(p.actions.decision) <= Severity(r.decision))
    && (r.decision != Allow ==> exists p :: Matching(ps, request, p) && p.actions.decision == r.decision)
    && (r.createIncident <==> exists p :: Matching(ps, request, p) && p.actions.createIncident)
    && (r.alertSoc <==> exists p :: Matching(ps, request, p) && p.actions.alertSoc)
  }

  lemma {:induction false} DecideIsMostRestrictive(engine: seq<Policy>, request: Request)
    ensures MostRestrictive(engine, request, Decide(engine, request))
  {
    if engine != [] {
      var init, p := engine[..|engine| - 1], engine[|engine| - 1];
      DecideIsMostRestrictive(init, request);
      ConsiderIsMostRestrictive(init, p, request, Decide(init, request));
      assert engine == init + [p];
    }
  }

  lemma ConsiderIsMostRestrictive(init: seq<Policy>, p: Policy, request: Request, r: Result)
    requires MostRestrictive(init, request, r)
    ensures MostRestrictive(init + [p], request, Consider(r, p, request))
  {
    var r' := Consider(r, p, request);
    var all := init + [p];
    forall q
      ensures Matching(all, request, q) <==> Matching(init, request, q) || (q == p && Matches(p.conditions, request))
    {
    }
    if Matches(p.conditions, request) {
      assert Matching(all, request, p);
    }
    if r'.decision != Allow && r'.decision == r.decision {
      var q :| Matching(init, request, q) && q.actions.decision == r.decision;
      assert Matching(all, request, q);
    }
    if r.createIncident {
      var q :| Matching(init, request, q) && q.actions.createIncident;
      assert Matching(all, request, q);
    }
    if r.alertSoc {
      var q :| Matching(init, request, q) && q.actions.alertSoc;
      assert Matching(all, request, q);
    }
  }

  /** The matching policies, in engine order. */
  function MatchesOf(engine: seq<Policy>, request: Request): seq<Policy> {
    if engine == [] then []
    else
      var rest, p := MatchesOf(engine[..|engine| - 1], request), engine[|engine| - 1];
      if Matches(p.conditions, request) then rest + [p] else rest
  }

  function Weight(p: Policy): nat {
    Severity(p.actions.decision)
  }

  /** Policy `k` of the matches decides: none is more severe, and none after it is as severe. */
  ghost predicate DecidesAt(matches: seq<Policy>, k: nat) {
    && k < |matches|
    && (forall j :: 0 <= j < k ==> Weight(matches[j]) <= Weight(matches[k]))
    && (forall j :: k < j < |matches| ==> Weight(matches[j]) < Weight(matches[k]))
  }

  /** The result takes decision, reason, identifier, version and message from the policy. */
  predicate Cites(r: Result, p: Policy) {
    && r.decision == p.actions.decision && r.reason == p.name && r.message == p.actions.message
    && r.policyId == p.policyId && r.policyVersion == p.version
  }

  ghost predicate CitesAt(matches: seq<Policy>, r: Result, k: nat) {
    DecidesAt(matches, k) && Cites(r, matches[k])
  }

  ghost predicate Lists(matched: seq<(string, int)>, matches: seq<Policy>) {
    |matched| == |matches| && forall i :: 0 <= i < |matches| ==> matched[i] == (matches[i].policyId, matches[i].version)
  }

  /** What a result says beside its flags: it lists every match, and cites the last one among those of
      maximum severity, or is the default when there is none. */
  ghost predicate Explained(matches: seq<Policy>, r: Result) {
    && Lists(r.matched, matches)
    && (matches == [] ==> r == DEFAULT_RESULT)
    && (matches != [] ==> exists k: nat :: CitesAt(matches, r, k))
  }

  lemma NoneHeavier(matches: seq<Policy>, r: Result, k: nat)
    requires CitesAt(matches, r, k)
    ensures forall j :: 0 <= j < |matches| ==> Weight(matches[j]) <= Severity(r.decision)
  {
    forall j | 0 <= j < |matches| ensures Weight(matches[j]) <= Severity(r.decision) {
      assert j < k || j == k || j > k;
    }
  }

  lemma LastDecides(matches: seq<Policy>, p: Policy, bound: nat)
    requires forall j :: 0 <= j < |matches| ==> Weight(matches[j]) <= bound
    requires Weight(p) >= bound
    ensures DecidesAt(matches + [p], |matches|)
  {
  }

  lemma EarlierDecides(matches: seq<Policy>, p: Policy, k: nat)
    requires DecidesAt(matches, k) && Weight(p) < Weight(matches[k])
    ensures DecidesAt(matches + [p], k)
  {
  }

  lemma ListsOneMore(matched: seq<(string, int)>, matches: seq<Policy>, p: Policy)
    requires Lists(matched, matches)
    ensures Lists(matched + [(p.policyId, p.version)], matches + [p])
  {
  }

  lemma ConsiderCites(matches: seq<Policy>, p: Policy, request: Request, r: Result) returns (k: nat)
    requires Explained(matches, r) && Matches(p.conditions, request)
    ensures CitesAt(matches + [p], Consider(r, p, request), k)
  {
    if Weight(p) >= Severity(r.decision) {
      if matches != [] {
        k :| CitesAt(matches, r, k);
        NoneHeavier(matches, r, k);
      }
      k := |matches|;
      LastDecides(matches, p, Severity(r.decision));
    } else {
      k :| CitesAt(matches, r, k);
      EarlierDecides(matches, p, k);
    }
  }

  lemma ConsiderExplains(matches: seq<Policy>, p: Policy, request: Request, r: Result)
    requires Explained(matches, r) && Matches(p.conditions, request)
    ensures Explained(matches + [p], Consider(r, p, request))
  {
    var k := ConsiderCites(matches, p, request, r);
    ListsOneMore(r.matched, matches, p);
  }

  /** Which policies a live result lists and which one it cites, for every engine and request. */
  lemma {:induction false} DecideExplains(engine: seq<Policy>, request: Request)
    ensures Explained(MatchesOf(engine, request), Decide(engine, request))
  {
    if engine != [] {
      var init, p := engine[..|engine| - 1], engine[|engine| - 1];
      DecideExplains(init, request);
      if Matches(p.conditions, request) {
        ConsiderExplains(MatchesOf(init, request), p, request, Decide(init, request));
      }
    }
  }

  /** The matches are exactly the engine's matching policies, in its order. */
  lemma {:induction false} MatchesOfMeaning(engine: seq<Policy>, request: Request)
    ensures forall p :: p in MatchesOf(engine, request) <==> p in engine && Matches(p.conditions, request)
    ensures Sorted(engine, PolicyLess) ==> Sorted(MatchesOf(engine, request), PolicyLess)
    ensures |MatchesOf(engine, request)| <= |engine|
  {
    if engine != [] {
      var init, p := engine[..|engine| - 1], engine[|engine| - 1];
      MatchesOfMeaning(init, request);
      SplitLast(engine);
      assert Sorted(engine, PolicyLess) ==> Sorted(init, PolicyLess);
      assert Sorted(engine, PolicyLess) ==> forall q :: q in init ==> !PolicyLess(p, q);
    }
  }

  /* ----- the degraded decision ----- */

  ghost predicate SomeFailClosedMatch(ps: seq<Policy>, request: Request) {
    exists p :: Matching(ps, request, p) && p.failMode == FailClosed
  }

  /** Deny if a matching policy is fail-closed; otherwise restrict sensitive access and monitor the
      rest. No request is ever answered ALLOW: `fail-open` is never selected. */
  ghost predicate DegradedDecision(ps: seq<Policy>, request: Request, d: Decision) {
    d == if SomeFailClosedMatch(ps, request) then Deny
         else if IsSensitive(request.sensitivity) then Restrict
         else AllowMonitor
  }

  method Degraded(engine: seq<Policy>, request: Request) returns (r: Result)
    ensures DegradedDecision(engine, request, r.decision)
    ensures !r.createIncident && !r.alertSoc && r.matched == [] && r.policyId == ""
  {
    var mode := FailSafe;
    var i := 0;
    while i < |engine|
      invariant 0 <= i <= |engine|
      invariant mode == FailSafe && forall j :: 0 <= j < i ==>
                  !(Matches(engine[j].conditions, request) && engine[j].failMode == FailClosed)
    {
      if Matches(engine[i].conditions, request) && engine[i].failMode == FailClosed {
        mode := FailClosed;
        assert Matching(engine, request, engine[i]);
        break;
      }
      i := i + 1;
    }
    r := DEFAULT_RESULT;
    match mode
    case FailClosed =>
      r := r.(decision := Deny, reason := "control plane unavailable; policy is fail-closed");
    case FailOpen =>
      r := r.(decision := Allow, reason := "control plane unavailable; policy is fail-open");
    case FailSafe =>
      if IsSensitive(request.sensitivity) {
        r := r.(decision := Restrict, reason := "control plane unavailable; sensitive access restricted");
      } else {
        r := r.(decision := AllowMonitor, reason := "control plane unavailable; continuing on cached policy");
      }
  }

  /** `Engine.Evaluate`. */
  method Evaluate(engine: seq<Policy>, request: Request) returns (r: Result)
    ensures request.degraded ==> DegradedDecision(engine, request, r.decision)
    ensures !request.degraded ==> r == Decide(engine, request) && MostRestrictive(engine, request, r)
                                  && Explained(MatchesOf(engine, request), r)
  {
    if request.degraded {
      r := Degraded(engine, request);
      return;
    }
    r := DEFAULT_RESULT;
    for i := 0 to |engine|
      invariant r == Decide(engine[..i], request)
    {
      var candidate := engine[i];
      assert engine[..i + 1][..i] == engine[..i] && engine[..i + 1][i] == candidate;
      if Matches(candidate.conditions, request) {
        var decides := Severity(candidate.actions.decision) >= Severity(r.decision);
        r := r.(matched := r.matched + [(candidate.policyId, candidate.version)],
                createIncident := r.createIncident || candidate.actions.createIncident,
                alertSoc := r.alertSoc || candidate.actions.alertSoc);
        if decides {
          r := r.(decision := candidate.actions.decision, reason := candidate.name,
                  policyId := candidate.policyId, policyVersion := candidate.version,
                  message := candidate.actions.message);
        }
      }
    }
    assert engine[..|engine|] == engine;
    DecideIsMostRestrictive(engine, request);
    DecideExplains(engine, request);
  }

  /* ----- order independence and monotonicity ----- */

  ghost predicate DistinctIds(ps: seq<Policy>) {
    forall p, q :: p in ps && q in ps && p.policyId == q.policyId ==> p == q
  }

  /** The whole result, including the cited policy and the match list, does not depend on the order
      in which the policies were read. */
  lemma ResultIgnoresInputOrder(ps: seq<Policy>, qs: seq<Policy>, request: Request)
    requires multiset(ps) == multiset(qs) && DistinctIds(ps)
    ensures EngineOf(ps) == EngineOf(qs)
    ensures Decide(EngineOf(ps), request) == Decide(EngineOf(qs), request)
  {
    var a, b := EnabledOnly(ps), EnabledOnly(qs);
    forall p ensures multiset(a)[p] == multiset(b)[p] {
      EnabledMembers(ps, p);
      EnabledMembers(qs, p);
    }
    assert multiset(a) == multiset(b);
    PolicyLessIsWeakOrder();
    forall x, y | x in a && y in a && x != y ensures PolicyLess(x, y) || PolicyLess(y, x) {
      EnabledMembers(ps, x);
      EnabledMembers(ps, y);
      assert x in multiset(a) && y in multiset(a) && x in multiset(ps) && y in multiset(ps);
      StrLessConnected(x.policyId, y.policyId);
    }
    SortIgnoresInputOrder(a, b, PolicyLess);
  }

  /** The decision and flags are fixed by which policies match. */
  lemma MoreMatchesMoreRestrictive(ps: seq<Policy>, qs: seq<Policy>, request: Request, r: Result, r': Result)
    requires MostRestrictive(ps, request, r) && MostRestrictive(qs, request, r')
    requires forall p :: Matching(ps, request, p) ==> Matching(qs, request, p)
    ensures Severity(r.decision) <= Severity(r'.decision)
    ensures (r.createIncident ==> r'.createIncident) && (r.alertSoc ==> r'.alertSoc)
  {
    if r.decision != Allow {
      var p :| Matching(ps, request, p) && p.actions.decision == r.decision;
      assert Matching(qs, request, p);
    }
    if r.createIncident {
      var p :| Matching(ps, request, p) && p.actions.createIncident;
      assert Matching(qs, request, p);
    }
    if r.alertSoc {
      var p :| Matching(ps, request, p) && p.actions.alertSoc;
      assert Matching(qs, request, p);
    }
  }

  /** Adding policies, enabled or not, anywhere in the list, never makes the live or the degraded
      decision less restrictive. */
  lemma AddingPoliciesIsMonotone(ps: seq<Policy>, qs: seq<Policy>, request: Request, d: Decision, d': Decision)
    requires forall p :: p in ps ==> p in qs
    requires DegradedDecision(EngineOf(ps), request, d) && DegradedDecision(EngineOf(qs), request, d')
    ensures Severity(Decide(EngineOf(ps), request).decision) <= Severity(Decide(EngineOf(qs), request).decision)
    ensures Decide(EngineOf(ps), request).createIncident ==> Decide(EngineOf(qs), request).createIncident
    ensures Decide(EngineOf(ps), request).alertSoc ==> Decide(EngineOf(qs), request).alertSoc
    ensures Severity(d) <= Severity(d')
  {
    var a, b := EngineOf(ps), EngineOf(qs);
    EngineMembers(ps);
    EngineMembers(qs);
    DecideIsMostRestrictive(a, request);
    DecideIsMostRestrictive(b, request);
    assert forall p :: Matching(a, request, p) ==> Matching(b, request, p);
    MoreMatchesMoreRestrictive(a, b, request, Decide(a, request), Decide(b, request));
    if SomeFailClosedMatch(a, request) {
      var p :| Matching(a, request, p) && p.failMode == FailClosed;
      assert Matching(b, request, p);
    }
  }

  /* ----- versions ----- */

  /** (policy_id, version) is a key. */
  ghost predicate VersionsUnique(table: seq<Policy>) {
    forall i, j :: 0 <= i < j < |table| ==>
      table[i].policyId != table[j].policyId || table[i].version != table[j].version
  }

  /** COALESCE(max(version) + 1, 1) over the rows of one policy. */
  function NextVersion(table: seq<Policy>, policyId: string): int {
    if table == [] then 1
    else
      var rest := NextVersion(table[..|table| - 1], policyId);
      if table[|table| - 1].policyId == policyId then Max(rest, table[|table| - 1].version + 1) else rest
  }

  lemma {:induction false} NextVersionIsFresh(table: seq<Policy>, policyId: string)
    ensures forall p :: p in table && p.policyId == policyId ==> p.version < NextVersion(table, policyId)
    ensures NextVersion(table, policyId) >= 1
    ensures NextVersion(table, policyId) == 1
            || exists p :: p in table && p.policyId == policyId && p.version + 1 == NextVersion(table, policyId)
  {
    if table != [] {
      NextVersionIsFresh(table[..|table| - 1], policyId);
      assert table == table[..|table| - 1] + [table[|table| - 1]];
      assert table[|table| - 1] in table;
    }
  }

  /** DISTINCT ON (policy_id) over the enabled rows, highest version first. */
  function Active(table: seq<Policy>): seq<Policy> {
    if table == [] then []
    else Supersede(Active(table[..|table| - 1]), table[|table| - 1])
  }

  function Supersede(active: seq<Policy>, p: Policy): seq<Policy> {
    if !p.enabled then active
    else if exists i :: 0 <= i < |active| && active[i].policyId == p.policyId && active[i].version >= p.version
    then active
    else Without(active, p.policyId) + [p]
  }

  function Without(active: seq<Policy>, policyId: string): seq<Policy> {
    if active == [] then []
    else if active[|active| - 1].policyId == policyId then Without(active[..|active| - 1], policyId)
    else Without(active[..|active| - 1], policyId) + [active[|active| - 1]]
  }

  lemma {:induction false} WithoutMembers(active: seq<Policy>, policyId: string)
    ensures forall p :: p in Without(active, policyId) <==> p in active && p.policyId != policyId
  {
    if active != [] {
      WithoutMembers(active[..|active| - 1], policyId);
      assert active == active[..|active| - 1] + [active[|active| - 1]];
    }
  }

  /** One version per policy id: the highest enabled one. */
  ghost predicate HighestEnabled(table: seq<Policy>, p: Policy) {
    p in table && p.enabled
    && forall q :: q in table && q.enabled && q.policyId == p.policyId ==> q.version <= p.version
  }

  lemma {:induction false} ActiveSelectsHighestEnabled(table: seq<Policy>)
    requires VersionsUnique(table)
    ensures forall p :: p in Active(table) <==> HighestEnabled(table, p)
    ensures DistinctIds(Active(table))
  {
    if table != [] {
      var init, row := table[..|table| - 1], table[|table| - 1];
      assert table == init + [row];
      ActiveSelectsHighestEnabled(init);
      WithoutMembers(Active(init), row.policyId);
      SupersedeSelects(init, row);
    }
  }

  lemma SupersedeSelects(init: seq<Policy>, row: Policy)
    requires VersionsUnique(init + [row])
    requires forall p :: p in Active(init) <==> HighestEnabled(init, p)
    requires DistinctIds(Active(init))
    ensures forall p :: p in Supersede(Active(init), row) <==> HighestEnabled(init + [row], p)
    ensures DistinctIds(Supersede(Active(init), row))
  {
    var active := Active(init);
    if !row.enabled {
      forall p ensures HighestEnabled(init + [row], p) <==> HighestEnabled(init, p) {
        DisabledRowIsIgnored(init, row, p);
      }
    } else if i :| 0 <= i < |active| && active[i].policyId == row.policyId && active[i].version >= row.version {
      forall p ensures HighestEnabled(init + [row], p) <==> HighestEnabled(init, p) {
        OlderRowIsIgnored(init, row, active[i], p);
      }
    } else {
      OlderThanRow(init, row);
      WithoutMembers(active, row.policyId);
      forall p
        ensures HighestEnabled(init + [row], p) <==> p == row || (HighestEnabled(init, p) && p.policyId != row.policyId)
      {
        NewerRowWins(init, row, p);
      }
    }
  }

  lemma DisabledRowIsIgnored(init: seq<Policy>, row: Policy, p: Policy)
    requires !row.enabled
    ensures HighestEnabled(init + [row], p) <==> HighestEnabled(init, p)
  {
    assert forall q :: q in init + [row] <==> q in init || q == row;
  }

  lemma OlderRowIsIgnored(init: seq<Policy>, row: Policy, newer: Policy, p: Policy)
    requires HighestEnabled(init, newer) && newer.policyId == row.policyId && newer.version >= row.version
    requires VersionsUnique(init + [row])
    ensures HighestEnabled(init + [row], p) <==> HighestEnabled(init, p)
  {
    assert forall q :: q in init + [row] <==> q in init || q == row;
    var k :| 0 <= k < |init| && init[k] == newer;
    assert (init + [row])[k] == newer && (init + [row])[|init|] == row;
  }

  lemma NewerRowWins(init: seq<Policy>, row: Policy, p: Policy)
    requires row.enabled
    requires forall q :: q in init && q.enabled && q.policyId == row.policyId ==> q.version < row.version
    ensures HighestEnabled(init + [row], p) <==> p == row || (HighestEnabled(init, p) && p.policyId != row.policyId)
  {
    assert forall q :: q in init + [row] <==> q in init || q == row;
  }

  /** If no active version is newer, no enabled version is. */
  lemma OlderThanRow(init: seq<Policy>, row: Policy)
    requires forall p :: p in Active(init) <==> HighestEnabled(init, p)
    requires forall i :: 0 <= i < |Active(init)| ==>
               !(Active(init)[i].policyId == row.policyId && Active(init)[i].version >= row.version)
    ensures forall q :: q in init && q.enabled && q.policyId == row.policyId ==> q.version < row.version
  {
    forall q | q in init && q.enabled && q.policyId == row.policyId ensures q.version < row.version {
      var top := HighestOf(init, q);
      assert top in Active(init);
      var i :| 0 <= i < |Active(init)| && Active(init)[i] == top;
    }
  }

  lemma {:induction false} HighestOf(table: seq<Policy>, q: Policy) returns (top: Policy)
    requires q in table && q.enabled
    ensures HighestEnabled(table, top) && top.policyId == q.policyId && top.version >= q.version
  {
    var init, row := table[..|table| - 1], table[|table| - 1];
    assert table == init + [row];
    if q in init {
      top := HighestOf(init, q);
      if row.enabled && row.policyId == q.policyId && row.version > top.version {
        top := row;
      }
    } else {
      top := row;
      if p :| p in init && p.enabled && p.policyId == row.policyId && p.version > row.version {
        top := HighestOf(init, p);
      }
    }
  }

  /** Versioned, immutable policies. */
  class Store {
    var table: seq<Policy>

    constructor ()
      ensures table == [] && VersionsUnique(table)
    {
      table := [];
    }

    /** An invalid policy is refused. A new version never rewrites an old one, so a decision that
        cited a version finds it. */
    method Create(p: Policy) returns (created: Option<Policy>)
      requires VersionsUnique(table)
      modifies this
      ensures VersionsUnique(table)
      ensures created.Some? <==> ValidPolicy(p)
      ensures created.Some? ==>
                && TrimSpace(p.policyId) != "" && ByteLen(p.policyId) <= 64
                && TrimSpace(p.name) != "" && ByteLen(p.name) <= 128
                && Satisfiable(p.conditions) && Constrains(p.conditions)
      ensures created.None? ==> table == old(table)
      ensures created.Some? ==>
                && table == old(table) + [created.value] && created.value == p.(version := created.value.version)
                && (forall q :: q in old(table) && q.policyId == p.policyId ==> q.version < created.value.version)
                && (created.value.version == 1
                    || exists q :: q in old(table) && q.policyId == p.policyId
                                   && q.version + 1 == created.value.version)
    {
      if !ValidPolicy(p) {
        return None;
      }
      ValidIsSatisfiable(p);
      var version := 1;
      for i := 0 to |table|
        invariant version == NextVersion(table[..i], p.policyId) && table == old(table)
      {
        assert table[..i + 1][..i] == table[..i] && table[..i + 1][i] == table[i];
        if table[i].policyId == p.policyId && table[i].version + 1 > version {
          version := table[i].version + 1;
        }
      }
      assert table[..|table|] == table;
      NextVersionIsFresh(table, p.policyId);
      var row := p.(version := version);
      table := table + [row];
      return Some(row);
    }
  }
}
