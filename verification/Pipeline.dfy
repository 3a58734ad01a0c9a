/** The decision pipeline: posture, risk score, band, and the shipped policies
    (backend/internal/posture/score.go, backend/internal/risk/engine.go,
    backend/internal/policy/defaults.go, backend/internal/trust/evaluator.go).
    The main theorem carries monotonicity through all four. */
module Pipeline {
  import opened Common
  import opened Risk
  import opened RiskCodes
  import P = Policies
  import Posture

  /* ----- raw scores, signal by signal ----- */

  /** What one signal adds when its condition holds. */
  function Points(condition: bool, dimension: Dimension, points: real, w: Weights): nat {
    if condition then Max(Round(points, ForDimension(w, dimension)), 0) else 0
  }

  lemma RawScoreWhen(condition: bool, code: Code, dimension: Dimension, points: real, w: Weights)
    ensures RawScore(When(condition, code, dimension, points), w) == Points(condition, dimension, points, w)
  {
    var s := When(condition, code, dimension, points);
    if condition {
      assert s[..0] == [];
      assert RawScore(s, w) == RawScore(s[..0], w) + Max(Weighted(s[0], w), 0);
    }
  }

  /** Rounding a weighted number of points keeps their order. */
  lemma RoundMonotone(p: real, q: real, weight: real)
    requires p <= q && weight >= 0.0
    ensures Round(p, weight) <= Round(q, weight)
  {
    var x, y := p * weight + 0.5, q * weight + 0.5;
    assert (q - p) * weight >= 0.0;
    assert y - x == (q - p) * weight;
    assert x.Floor as real <= x && y < y.Floor as real + 1.0;
  }

  lemma PointsMonotone(c: bool, c': bool, dimension: Dimension, p: real, p': real, w: Weights)
    requires ValidWeights(w) && (c ==> c' && p <= p')
    ensures Points(c, dimension, p, w) <= Points(c', dimension, p', w)
  {
    if c {
      RoundMonotone(p, p', ForDimension(w, dimension));
    }
  }

  /** Comparing one optional signal on both sides. */
  lemma WhenMonotone(c: bool, c': bool, code: Code, dimension: Dimension, p: real, p': real, w: Weights)
    requires ValidWeights(w) && (c ==> c' && p <= p')
    ensures RawScore(When(c, code, dimension, p), w) <= RawScore(When(c', code, dimension, p'), w)
  {
    RawScoreWhen(c, code, dimension, p, w);
    RawScoreWhen(c', code, dimension, p', w);
    PointsMonotone(c, c', dimension, p, p', w);
  }

  lemma ConcatMonotone(a: seq<Signal>, b: seq<Signal>, a': seq<Signal>, b': seq<Signal>, w: Weights)
    requires RawScore(a, w) <= RawScore(a', w) && RawScore(b, w) <= RawScore(b', w)
    ensures RawScore(a + b, w) <= RawScore(a' + b', w)
  {
    RawScoreConcat(a, b, w);
    RawScoreConcat(a', b', w);
  }

  lemma FourMonotone(a1: seq<Signal>, a2: seq<Signal>, a3: seq<Signal>, a4: seq<Signal>,
                     b1: seq<Signal>, b2: seq<Signal>, b3: seq<Signal>, b4: seq<Signal>, w: Weights)
    requires RawScore(a1, w) <= RawScore(b1, w) && RawScore(a2, w) <= RawScore(b2, w)
    requires RawScore(a3, w) <= RawScore(b3, w) && RawScore(a4, w) <= RawScore(b4, w)
    ensures RawScore(a1 + (a2 + (a3 + a4)), w) <= RawScore(b1 + (b2 + (b3 + b4)), w)
  {
    ConcatMonotone(a3, a4, b3, b4, w);
    ConcatMonotone(a2, a3 + a4, b2, b3 + b4, w);
    ConcatMonotone(a1, a2 + (a3 + a4), b1, b2 + (b3 + b4), w);
  }

  /* ----- worse inputs ----- */

  function SensitivityRank(s: Sensitivity): nat {
    match s
    case Public => 0
    case Internal => 1
    case Sensitive => 2
    case CriticalResource => 3
  }

  /** Trust got worse. An unknown posture weighs as much as a trust score of 40. */
  predicate TrustWorse(a: Option<int>, b: Option<int>) {
    match (a, b)
    case (Some(x), Some(y)) => y <= x
    case (None, None) => true
    case (Some(x), None) => x >= 40
    case (None, Some(y)) => y <= 40
  }

  /** Every input of `b` is at least as bad, with baseline and network knowledge unchanged. */
  predicate AtLeastAsBad(a: Inputs, b: Inputs) {
    && (a.firstEverSession ==> b.firstEverSession) && (b.sessionAttested ==> a.sessionAttested)
    && TrustWorse(a.deviceTrustScore, b.deviceTrustScore) && (a.softwareKey ==> b.softwareKey)
    && (a.deviceFirstSeen ==> b.deviceFirstSeen)
    && (RecentEnrollment(a) ==> RecentEnrollment(b)) && (Silent(a) ==> Silent(b))
    && a.baselineEstablished == b.baselineEstablished && (b.loginHourTypical ==> a.loginHourTypical)
    && a.accessVolumeZ <= b.accessVolumeZ && (a.unfamiliarApplication ==> b.unfamiliarApplication)
    && a.anomalyScore <= b.anomalyScore
    && a.networkKnown == b.networkKnown && (b.networkFamiliar ==> a.networkFamiliar)
    && SensitivityRank(a.sensitivity) <= SensitivityRank(b.sensitivity)
    && a.recentIncidents <= b.recentIncidents && a.recentDenials <= b.recentDenials
  }

  lemma IdentityMonotone(a: Inputs, b: Inputs, w: Weights)
    requires ValidWeights(w) && AtLeastAsBad(a, b)
    ensures RawScore(IdentitySignals(a), w) <= RawScore(IdentitySignals(b), w)
  {
    WhenMonotone(a.firstEverSession, b.firstEverSession, FirstSession, Identity, 8.0, 8.0, w);
    WhenMonotone(!a.sessionAttested, !b.sessionAttested, UnattestedSession, Identity, 30.0, 30.0, w);
    ConcatMonotone(When(a.firstEverSession, FirstSession, Identity, 8.0),
                   When(!a.sessionAttested, UnattestedSession, Identity, 30.0),
                   When(b.firstEverSession, FirstSession, Identity, 8.0),
                   When(!b.sessionAttested, UnattestedSession, Identity, 30.0), w);
  }

  /** The points the posture signals are worth. */
  function PosturePoints(trust: Option<int>): real {
    if trust.None? then 12.0 else if trust.value < 70 then TrustPoints(trust.value) else 0.0
  }

  lemma PostureSignalsScore(trust: Option<int>, w: Weights)
    requires ValidWeights(w)
    ensures RawScore(PostureSignals(trust), w) == Points(true, Device, PosturePoints(trust), w)
  {
    if trust.None? {
      RawScoreWhen(true, NoPosture, Device, 12.0, w);
    } else {
      RawScoreWhen(trust.value < 70, LowDeviceTrust, Device, TrustPoints(trust.value), w);
    }
  }

  lemma PostureMonotone(a: Option<int>, b: Option<int>, w: Weights)
    requires ValidWeights(w) && TrustWorse(a, b)
    ensures RawScore(PostureSignals(a), w) <= RawScore(PostureSignals(b), w)
  {
    PostureSignalsScore(a, w);
    PostureSignalsScore(b, w);
    PointsMonotone(true, true, Device, PosturePoints(a), PosturePoints(b), w);
  }

  lemma DeviceMonotone(a: Inputs, b: Inputs, w: Weights)
    requires ValidWeights(w) && AtLeastAsBad(a, b)
    ensures RawScore(DeviceSignals(a), w) <= RawScore(DeviceSignals(b), w)
  {
    WhenMonotone(a.deviceFirstSeen, b.deviceFirstSeen, NewDevice, Device, 20.0, 20.0, w);
    WhenMonotone(RecentEnrollment(a), RecentEnrollment(b), RecentlyEnrolled, Device, 6.0, 6.0, w);
    PostureMonotone(a.deviceTrustScore, b.deviceTrustScore, w);
    WhenMonotone(a.softwareKey, b.softwareKey, SoftwareKey, Device, 3.0, 3.0, w);
    WhenMonotone(Silent(a), Silent(b), AgentSilent, Device, 15.0, 15.0, w);
    FourMonotone(When(RecentEnrollment(a), RecentlyEnrolled, Device, 6.0), PostureSignals(a.deviceTrustScore),
                 When(a.softwareKey, SoftwareKey, Device, 3.0), When(Silent(a), AgentSilent, Device, 15.0),
                 When(RecentEnrollment(b), RecentlyEnrolled, Device, 6.0), PostureSignals(b.deviceTrustScore),
                 When(b.softwareKey, SoftwareKey, Device, 3.0), When(Silent(b), AgentSilent, Device, 15.0), w);
    ConcatMonotone(When(a.deviceFirstSeen, NewDevice, Device, 20.0),
                   When(RecentEnrollment(a), RecentlyEnrolled, Device, 6.0)
                   + (PostureSignals(a.deviceTrustScore)
                   + (When(a.softwareKey, SoftwareKey, Device, 3.0) + When(Silent(a), AgentSilent, Device, 15.0))),
                   When(b.deviceFirstSeen, NewDevice, Device, 20.0),
                   When(RecentEnrollment(b), RecentlyEnrolled, Device, 6.0)
                   + (PostureSignals(b.deviceTrustScore)
                   + (When(b.softwareKey, SoftwareKey, Device, 3.0) + When(Silent(b), AgentSilent, Device, 15.0))), w);
  }

  lemma VolumePointsMonotone(z: real, z': real)
    requires z <= z'
    ensures VolumePoints(z) <= VolumePoints(z') && (z - 0.5) * 20.0 <= (z' - 0.5) * 20.0
  {
  }

  lemma BehaviourMonotone(a: Inputs, b: Inputs, w: Weights)
    requires ValidWeights(w) && AtLeastAsBad(a, b)
    ensures RawScore(BehaviourSignals(a), w) <= RawScore(BehaviourSignals(b), w)
  {
    if a.baselineEstablished {
      VolumePointsMonotone(a.accessVolumeZ, b.accessVolumeZ);
      VolumePointsMonotone(a.anomalyScore, b.anomalyScore);
      DeviationsMonotone(!a.loginHourTypical, !b.loginHourTypical,
                         a.accessVolumeZ >= 3.0, b.accessVolumeZ >= 3.0,
                         VolumePoints(a.accessVolumeZ), VolumePoints(b.accessVolumeZ),
                         a.unfamiliarApplication, b.unfamiliarApplication,
                         a.anomalyScore > 0.5, b.anomalyScore > 0.5,
                         (a.anomalyScore - 0.5) * 20.0, (b.anomalyScore - 0.5) * 20.0, w);
    }
  }

  /** The four signals of an established baseline, condition by condition. */
  lemma DeviationsMonotone(hour: bool, hour': bool, volume: bool, volume': bool, p: real, p': real,
                           app: bool, app': bool, anomaly: bool, anomaly': bool, q: real, q': real, w: Weights)
    requires ValidWeights(w)
    requires (hour ==> hour') && (volume ==> volume' && p <= p') && (app ==> app') && (anomaly ==> anomaly' && q <= q')
    ensures RawScore(When(hour, UnusualLoginTime, Behaviour, 15.0)
                     + (When(volume, AbnormalAccessVolume, Behaviour, p)
                     + (When(app, UnfamiliarApplication, Behaviour, 6.0)
                     + When(anomaly, BehaviourAnomaly, Behaviour, q))), w)
         <= RawScore(When(hour', UnusualLoginTime, Behaviour, 15.0)
                     + (When(volume', AbnormalAccessVolume, Behaviour, p')
                     + (When(app', UnfamiliarApplication, Behaviour, 6.0)
                     + When(anomaly', BehaviourAnomaly, Behaviour, q'))), w)
  {
    WhenMonotone(hour, hour', UnusualLoginTime, Behaviour, 15.0, 15.0, w);
    WhenMonotone(volume, volume', AbnormalAccessVolume, Behaviour, p, p', w);
    WhenMonotone(app, app', UnfamiliarApplication, Behaviour, 6.0, 6.0, w);
    WhenMonotone(anomaly, anomaly', BehaviourAnomaly, Behaviour, q, q', w);
    FourMonotone(When(hour, UnusualLoginTime, Behaviour, 15.0), When(volume, AbnormalAccessVolume, Behaviour, p),
                 When(app, UnfamiliarApplication, Behaviour, 6.0), When(anomaly, BehaviourAnomaly, Behaviour, q),
                 When(hour', UnusualLoginTime, Behaviour, 15.0), When(volume', AbnormalAccessVolume, Behaviour, p'),
                 When(app', UnfamiliarApplication, Behaviour, 6.0), When(anomaly', BehaviourAnomaly, Behaviour, q'), w);
  }

  lemma NetworkMonotone(a: Inputs, b: Inputs, w: Weights)
    requires ValidWeights(w) && AtLeastAsBad(a, b)
    ensures RawScore(NetworkSignals(a), w) <= RawScore(NetworkSignals(b), w)
  {
    if a.networkKnown {
      WhenMonotone(!a.networkFamiliar, !b.networkFamiliar, UnusualNetwork, Network, 12.0, 12.0, w);
    }
  }

  /** The points a resource class is worth. */
  function ResourcePoints(s: Sensitivity): real {
    match s
    case CriticalResource => 25.0
    case Sensitive => 12.0
    case _ => 0.0
  }

  lemma ResourceScore(s: Sensitivity, w: Weights)
    requires ValidWeights(w)
    ensures RawScore(ResourceSignals(s), w) == Points(true, Resource, ResourcePoints(s), w)
  {
    RawScoreWhen(true, CriticalResourceAccessed, Resource, 25.0, w);
    RawScoreWhen(true, SensitiveResourceAccessed, Resource, 12.0, w);
  }

  lemma ResourceMonotone(a: Inputs, b: Inputs, w: Weights)
    requires ValidWeights(w) && AtLeastAsBad(a, b)
    ensures RawScore(ResourceSignals(a.sensitivity), w) <= RawScore(ResourceSignals(b.sensitivity), w)
  {
    ResourceScore(a.sensitivity, w);
    ResourceScore(b.sensitivity, w);
    PointsMonotone(true, true, Resource, ResourcePoints(a.sensitivity), ResourcePoints(b.sensitivity), w);
  }

  lemma HistoryMonotone(a: Inputs, b: Inputs, w: Weights)
    requires ValidWeights(w) && AtLeastAsBad(a, b)
    ensures RawScore(HistorySignals(a), w) <= RawScore(HistorySignals(b), w)
  {
    WhenMonotone(a.recentIncidents > 0, b.recentIncidents > 0, RecentIncident, History,
                 IncidentPoints(a.recentIncidents), IncidentPoints(b.recentIncidents), w);
    WhenMonotone(a.recentDenials >= 3, b.recentDenials >= 3, RepeatedDenials, History, 8.0, 8.0, w);
    ConcatMonotone(When(a.recentIncidents > 0, RecentIncident, History, IncidentPoints(a.recentIncidents)),
                   When(a.recentDenials >= 3, RepeatedDenials, History, 8.0),
                   When(b.recentIncidents > 0, RecentIncident, History, IncidentPoints(b.recentIncidents)),
                   When(b.recentDenials >= 3, RepeatedDenials, History, 8.0), w);
  }

  /** Worsening any input never lowers the score. */
  lemma ScoreIsMonotone(a: Inputs, b: Inputs, w: Weights)
    requires ValidWeights(w) && AtLeastAsBad(a, b)
    ensures Score(a, w) <= Score(b, w)
  {
    IdentityMonotone(a, b, w);
    DeviceMonotone(a, b, w);
    BehaviourMonotone(a, b, w);
    NetworkMonotone(a, b, w);
    ResourceMonotone(a, b, w);
    HistoryMonotone(a, b, w);
    var (a5, b5) := (ResourceSignals(a.sensitivity) + HistorySignals(a),
                     ResourceSignals(b.sensitivity) + HistorySignals(b));
    ConcatMonotone(ResourceSignals(a.sensitivity), HistorySignals(a),
                   ResourceSignals(b.sensitivity), HistorySignals(b), w);
    var (a4, b4) := (NetworkSignals(a) + a5, NetworkSignals(b) + b5);
    ConcatMonotone(NetworkSignals(a), a5, NetworkSignals(b), b5, w);
    var (a3, b3) := (BehaviourSignals(a) + a4, BehaviourSignals(b) + b4);
    ConcatMonotone(BehaviourSignals(a), a4, BehaviourSignals(b), b4, w);
    ConcatMonotone(DeviceSignals(a), a3, DeviceSignals(b), b3, w);
    ConcatMonotone(IdentitySignals(a), DeviceSignals(a) + a3, IdentitySignals(b), DeviceSignals(b) + b3, w);
  }

  /* ----- bands and actions ----- */

  function LevelRank(l: Level): nat {
    match l
    case Low => 0
    case Medium => 1
    case Elevated => 2
    case High => 3
    case Critical => 4
  }

  function ActionRank(a: Action): nat {
    match a
    case Allow => 0
    case AllowMonitor => 1
    case Verify => 2
    case StepUpMfa => 3
    case Restrict => 4
    case Isolate => 5
  }

  lemma BandsAreMonotone(t: Thresholds, a: int, b: int)
    requires ValidThresholds(t) && a <= b
    ensures LevelRank(LevelOf(t, a)) <= LevelRank(LevelOf(t, b))
    ensures ActionRank(RecommendedAction(LevelOf(t, a))) <= ActionRank(RecommendedAction(LevelOf(t, b)))
  {
  }

  /* ----- raised factors ----- */

  ghost predicate Raised(in': Inputs, w: Weights, code: Code) {
    exists f :: f in FactorsOf(Signals(in'), w) && f.code == code
  }

  lemma RaisedIff(in': Inputs, w: Weights, code: Code)
    ensures Raised(in', w, code) <==> Contribution(in', w, code) > 0
  {
    var f := Factor(code, DimensionOf(code), Contribution(in', w, code));
    FactorIsRaisedIff(in', w, f);
    if g :| g in FactorsOf(Signals(in'), w) && g.code == code {
      FactorIsRaisedIff(in', w, g);
    }
  }

  /** The two factors the shipped policies key on are raised exactly when their input says so and the
      weight does not round them away. */
  lemma KeyFactors(in': Inputs, w: Weights)
    ensures Raised(in', w, UnattestedSession) <==> !in'.sessionAttested && Round(30.0, w.identity) > 0
    ensures Raised(in', w, NewDevice) <==> in'.deviceFirstSeen && Round(20.0, w.device) > 0
  {
    RaisedIff(in', w, UnattestedSession);
    RaisedIff(in', w, NewDevice);
  }

  /* ----- the shipped policies ----- */

  function LevelName(l: Level): string {
    match l
    case Low => "LOW"
    case Medium => "MEDIUM"
    case Elevated => "ELEVATED"
    case High => "HIGH"
    case Critical => "CRITICAL"
  }

  function SensitivityName(s: Sensitivity): string {
    match s
    case Public => "PUBLIC"
    case Internal => "INTERNAL"
    case Sensitive => "SENSITIVE"
    case CriticalResource => "CRITICAL"
  }

  const ANY := P.Conditions(None, None, [], [], [])

  function BandId(l: Level): string {
    match l
    case Low => "baseline-low"
    case Medium => "baseline-medium"
    case Elevated => "baseline-elevated"
    case High => "baseline-high"
    case Critical => "baseline-critical"
  }

  function BandPriority(l: Level): int {
    match l
    case Low => 100
    case Medium => 90
    case Elevated => 80
    case High => 70
    case Critical => 10
  }

  function BandDecision(l: Level): P.Decision {
    match l
    case Low => P.Allow
    case Medium => P.AllowMonitor
    case Elevated => P.Verify
    case High => P.StepUpMfa
    case Critical => P.Isolate
  }

  function BandFailMode(l: Level): P.FailMode {
    match l
    case Low => P.FailOpen
    case Medium => P.FailOpen
    case Elevated => P.FailSafe
    case High => P.FailSafe
    case Critical => P.FailClosed
  }

  /** One rule per risk band; only the top bands alert, only the last opens an incident. */
  function BandPolicy(l: Level): P.Policy {
    P.Policy(BandId(l), 1, "", BandPriority(l), true, ANY.(levels := [LevelName(l)]),
             P.Actions(BandDecision(l), l == Critical, l == High || l == Critical, ""), BandFailMode(l))
  }

  const RESOURCE_GUARD :=
    P.Policy("critical-resource-guard", 1, "", 20, true,
             ANY.(minRisk := Some(51), sensitivities := ["CRITICAL"]),
             P.Actions(P.Restrict, true, true, ""), P.FailClosed)

  const NEW_DEVICE_GUARD :=
    P.Policy("new-device-sensitive", 1, "", 30, true,
             ANY.(requireFactors := ["NEW_DEVICE"], sensitivities := ["SENSITIVE", "CRITICAL"]),
             P.Actions(P.StepUpMfa, false, true, ""), P.FailClosed)

  const UNATTESTED_GUARD :=
    P.Policy("unattested-session", 1, "", 5, true,
             ANY.(requireFactors := ["UNATTESTED_SESSION"]),
             P.Actions(P.Deny, true, true, ""), P.FailClosed)

  /** The shipped rule set, without its titles and messages. */
  function DefaultPolicies(): seq<P.Policy> {
    [BandPolicy(Low), BandPolicy(Medium), BandPolicy(Elevated), BandPolicy(High), BandPolicy(Critical),
     RESOURCE_GUARD, NEW_DEVICE_GUARD, UNATTESTED_GUARD]
  }

  /** The policy request the evaluator builds for a session. */
  ghost function RequestFor(in': Inputs, w: Weights, t: Thresholds): P.Request {
    P.Request(Score(in', w), LevelName(LevelOf(t, Score(in', w))),
              set f | f in FactorsOf(Signals(in'), w) :: Name(f.code), SensitivityName(in'.sensitivity), false)
  }

  ghost function DecisionFor(in': Inputs, w: Weights, t: Thresholds): P.Result {
    P.Decide(P.EngineOf(DefaultPolicies()), RequestFor(in', w, t))
  }

  lemma UpperFirst(s: string)
    requires s != ""
    ensures ToUpper(s)[0] == UpperChar(s[0])
  {
  }

  lemma LevelNamesDistinct(a: Level, b: Level)
    ensures P.EqualFold(LevelName(a), LevelName(b)) <==> a == b
  {
    UpperFirst(LevelName(a));
    UpperFirst(LevelName(b));
  }

  lemma SensitivityNamesDistinct(a: Sensitivity, b: Sensitivity)
    ensures P.EqualFold(SensitivityName(a), SensitivityName(b)) <==> a == b
  {
    UpperFirst(SensitivityName(a));
    UpperFirst(SensitivityName(b));
  }

  lemma ContainsOne(x: string, needle: string)
    ensures P.ContainsFold([x], needle) <==> P.EqualFold(x, needle)
  {
    if P.EqualFold(x, needle) {
      assert P.EqualFold([x][0], needle);
    }
  }

  lemma ContainsTwo(x: string, y: string, needle: string)
    ensures P.ContainsFold([x, y], needle) <==> P.EqualFold(x, needle) || P.EqualFold(y, needle)
  {
    if P.EqualFold(x, needle) {
      assert P.EqualFold([x, y][0], needle);
    }
    if P.EqualFold(y, needle) {
      assert P.EqualFold([x, y][1], needle);
    }
  }

  lemma BandPolicyMatches(l: Level, l': Level, r: P.Request)
    requires r.level == LevelName(l')
    ensures P.Matches(BandPolicy(l).conditions, r) <==> l == l'
  {
    LevelNamesDistinct(l, l');
    ContainsOne(LevelName(l), r.level);
  }

  lemma ResourceGuardMatches(r: P.Request, s: Sensitivity)
    requires r.sensitivity == SensitivityName(s)
    ensures P.Matches(RESOURCE_GUARD.conditions, r) <==> r.score >= 51 && s == CriticalResource
  {
    SensitivityNamesDistinct(CriticalResource, s);
    ContainsOne("CRITICAL", r.sensitivity);
  }

  lemma UpperCaseCodes()
    ensures ToUpper("NEW_DEVICE") == "NEW_DEVICE"
    ensures ToUpper("UNATTESTED_SESSION") == "UNATTESTED_SESSION"
  {
  }

  lemma RequiresOne(c: P.Conditions, r: P.Request, code: string)
    requires c.requireFactors == [code] && ToUpper(code) == code
    ensures (forall i :: 0 <= i < |c.requireFactors| ==> ToUpper(c.requireFactors[i]) in r.factors)
       <==> code in r.factors
  {
    assert c.requireFactors[0] == code;
  }

  lemma NewDeviceGuardMatches(r: P.Request, s: Sensitivity)
    requires r.sensitivity == SensitivityName(s)
    ensures P.Matches(NEW_DEVICE_GUARD.conditions, r)
       <==> Name(NewDevice) in r.factors && (s == Sensitive || s == CriticalResource)
  {
    SensitivityNamesDistinct(Sensitive, s);
    SensitivityNamesDistinct(CriticalResource, s);
    ContainsTwo("SENSITIVE", "CRITICAL", r.sensitivity);
    UpperCaseCodes();
    RequiresOne(NEW_DEVICE_GUARD.conditions, r, "NEW_DEVICE");
  }

  lemma UnattestedGuardMatches(r: P.Request)
    ensures P.Matches(UNATTESTED_GUARD.conditions, r) <==> Name(UnattestedSession) in r.factors
  {
    UpperCaseCodes();
    RequiresOne(UNATTESTED_GUARD.conditions, r, "UNATTESTED_SESSION");
  }

  /** The two codes are no other factor's name. */
  lemma KeyNamesUnique(c: Code)
    ensures Name(c) == Name(NewDevice) ==> c == NewDevice
    ensures Name(c) == Name(UnattestedSession) ==> c == UnattestedSession
  {
    assert Name(NewDevice)[1] == 'E' && |Name(NewDevice)| == 10;
    assert Name(UnattestedSession)[2] == 'A' && |Name(UnattestedSession)| == 18;
  }

  lemma RaisedInRequest(in': Inputs, w: Weights, t: Thresholds)
    ensures Name(NewDevice) in RequestFor(in', w, t).factors <==> Raised(in', w, NewDevice)
    ensures Name(UnattestedSession) in RequestFor(in', w, t).factors <==> Raised(in', w, UnattestedSession)
  {
    forall c ensures Name(c) == Name(NewDevice) ==> c == NewDevice {
      KeyNamesUnique(c);
    }
    forall c ensures Name(c) == Name(UnattestedSession) ==> c == UnattestedSession {
      KeyNamesUnique(c);
    }
  }

  /** Every policy that matches the milder request is answered, in the harsher one, by a matching
      policy that is at least as severe and raises at least the same flags. */
  ghost predicate Answered(p: P.Policy, q: P.Policy, r': P.Request) {
    && P.Matching(DefaultPolicies(), r', q)
    && P.Severity(p.actions.decision) <= P.Severity(q.actions.decision)
    && (p.actions.createIncident ==> q.actions.createIncident)
    && (p.actions.alertSoc ==> q.actions.alertSoc)
  }

  /** A request at least as harsh in every respect the shipped policies look at. */
  ghost predicate Harsher(r: P.Request, l: Level, s: Sensitivity, r': P.Request, l': Level, s': Sensitivity) {
    && r.score <= r'.score
    && r.level == LevelName(l) && r'.level == LevelName(l') && LevelRank(l) <= LevelRank(l')
    && r.sensitivity == SensitivityName(s) && r'.sensitivity == SensitivityName(s')
    && SensitivityRank(s) <= SensitivityRank(s')
    && (Name(NewDevice) in r.factors ==> Name(NewDevice) in r'.factors)
    && (Name(UnattestedSession) in r.factors ==> Name(UnattestedSession) in r'.factors)
  }

  lemma BandIn(l: Level)
    ensures BandPolicy(l) in DefaultPolicies()
  {
    var d := DefaultPolicies();
    assert d[0] == BandPolicy(Low) && d[1] == BandPolicy(Medium) && d[2] == BandPolicy(Elevated)
           && d[3] == BandPolicy(High) && d[4] == BandPolicy(Critical);
  }

  lemma GuardsIn()
    ensures RESOURCE_GUARD in DefaultPolicies() && NEW_DEVICE_GUARD in DefaultPolicies()
            && UNATTESTED_GUARD in DefaultPolicies()
  {
    var d := DefaultPolicies();
    assert d[5] == RESOURCE_GUARD && d[6] == NEW_DEVICE_GUARD && d[7] == UNATTESTED_GUARD;
  }

  lemma BandSeverity(l: Level, l': Level)
    requires LevelRank(l) <= LevelRank(l')
    ensures P.Severity(BandPolicy(l).actions.decision) <= P.Severity(BandPolicy(l').actions.decision)
    ensures BandPolicy(l).actions.createIncident ==> BandPolicy(l').actions.createIncident
    ensures BandPolicy(l).actions.alertSoc ==> BandPolicy(l').actions.alertSoc
  {
  }

  lemma BandAnswered(band: Level, r: P.Request, l: Level, s: Sensitivity, r': P.Request, l': Level, s': Sensitivity)
    requires Harsher(r, l, s, r', l', s') && P.Matches(BandPolicy(band).conditions, r)
    ensures Answered(BandPolicy(band), BandPolicy(l'), r')
  {
    BandPolicyMatches(band, l, r);
    BandPolicyMatches(l', l', r');
    BandIn(l');
    BandSeverity(l, l');
  }

  lemma GuardAnswered(p: P.Policy, r: P.Request, l: Level, s: Sensitivity, r': P.Request, l': Level, s': Sensitivity)
    requires p == RESOURCE_GUARD || p == NEW_DEVICE_GUARD || p == UNATTESTED_GUARD
    requires Harsher(r, l, s, r', l', s') && P.Matches(p.conditions, r)
    ensures Answered(p, p, r')
  {
    GuardsIn();
    if p == RESOURCE_GUARD {
      ResourceGuardMatches(r, s);
      ResourceGuardMatches(r', s');
    } else if p == NEW_DEVICE_GUARD {
      NewDeviceGuardMatches(r, s);
      NewDeviceGuardMatches(r', s');
    } else {
      UnattestedGuardMatches(r);
      UnattestedGuardMatches(r');
    }
  }

  lemma MatchAnswered(p: P.Policy, r: P.Request, l: Level, s: Sensitivity, r': P.Request, l': Level, s': Sensitivity)
    returns (q: P.Policy)
    requires Harsher(r, l, s, r', l', s') && P.Matching(DefaultPolicies(), r, p)
    ensures Answered(p, q, r')
  {
    var d := DefaultPolicies();
    var i :| 0 <= i < |d| && d[i] == p;
    if i < 5 {
      var band := if i == 0 then Low else if i == 1 then Medium else if i == 2 then Elevated
                  else if i == 3 then High else Critical;
      assert p == BandPolicy(band);
      BandAnswered(band, r, l, s, r', l', s');
      q := BandPolicy(l');
    } else {
      GuardAnswered(p, r, l, s, r', l', s');
      q := p;
    }
  }

  lemma DefaultsAllEnabled(p: P.Policy)
    requires p in DefaultPolicies()
    ensures p.enabled
  {
  }

  lemma DecisionsFollow(r: P.Request, l: Level, s: Sensitivity, r': P.Request, l': Level, s': Sensitivity,
                        d: P.Result, d': P.Result)
    requires Harsher(r, l, s, r', l', s')
    requires P.MostRestrictive(DefaultPolicies(), r, d) && P.MostRestrictive(DefaultPolicies(), r', d')
    ensures P.Severity(d.decision) <= P.Severity(d'.decision)
    ensures (d.createIncident ==> d'.createIncident) && (d.alertSoc ==> d'.alertSoc)
  {
    if d.decision != P.Allow {
      var p :| P.Matching(DefaultPolicies(), r, p) && p.actions.decision == d.decision;
      var q := MatchAnswered(p, r, l, s, r', l', s');
    }
    if d.createIncident {
      var p :| P.Matching(DefaultPolicies(), r, p) && p.actions.createIncident;
      var q := MatchAnswered(p, r, l, s, r', l', s');
    }
    if d.alertSoc {
      var p :| P.Matching(DefaultPolicies(), r, p) && p.actions.alertSoc;
      var q := MatchAnswered(p, r, l, s, r', l', s');
    }
  }

  /** The engine over the shipped policies decides as the policies themselves. */
  lemma EngineDecidesDefaults(r: P.Request)
    ensures P.MostRestrictive(DefaultPolicies(), r, P.Decide(P.EngineOf(DefaultPolicies()), r))
  {
    var d := DefaultPolicies();
    var e := P.EngineOf(d);
    P.DecideIsMostRestrictive(e, r);
    P.EngineMembers(d);
    forall p ensures P.Matching(e, r, p) <==> P.Matching(d, r, p) {
      if p in d {
        DefaultsAllEnabled(p);
      }
    }
    SameMatchesSameMeaning(e, d, r, P.Decide(e, r));
  }

  /* What the shipped policies decide, written out. */

  /** The three guards, by what they look at. */
  predicate ResourceGuarded(in': Inputs, w: Weights) {
    Score(in', w) >= 51 && in'.sensitivity == CriticalResource
  }

  predicate NewDeviceGuarded(in': Inputs, w: Weights) {
    in'.deviceFirstSeen && Round(20.0, w.device) > 0
    && (in'.sensitivity == Sensitive || in'.sensitivity == CriticalResource)
  }

  predicate UnattestedGuarded(in': Inputs, w: Weights) {
    !in'.sessionAttested && Round(30.0, w.identity) > 0
  }

  /** What one shipped policy asks for when it matches. */
  ghost predicate Asks(in': Inputs, w: Weights, l: Level, d: P.Decision, incident: bool, alert: bool) {
    || (d == BandDecision(l) && incident == (l == Critical) && alert == (l == High || l == Critical))
    || (ResourceGuarded(in', w) && d == P.Restrict && incident && alert)
    || (NewDeviceGuarded(in', w) && d == P.StepUpMfa && !incident && alert)
    || (UnattestedGuarded(in', w) && d == P.Deny && incident && alert)
  }

  lemma BandAsks(in': Inputs, w: Weights, t: Thresholds, band: Level)
    ensures P.Matches(BandPolicy(band).conditions, RequestFor(in', w, t)) <==> band == LevelOf(t, Score(in', w))
  {
    BandPolicyMatches(band, LevelOf(t, Score(in', w)), RequestFor(in', w, t));
  }

  lemma GuardsAsk(in': Inputs, w: Weights, t: Thresholds)
    ensures P.Matches(RESOURCE_GUARD.conditions, RequestFor(in', w, t)) <==> ResourceGuarded(in', w)
    ensures P.Matches(NEW_DEVICE_GUARD.conditions, RequestFor(in', w, t)) <==> NewDeviceGuarded(in', w)
    ensures P.Matches(UNATTESTED_GUARD.conditions, RequestFor(in', w, t)) <==> UnattestedGuarded(in', w)
  {
    var r := RequestFor(in', w, t);
    ResourceGuardMatches(r, in'.sensitivity);
    NewDeviceGuardMatches(r, in'.sensitivity);
    UnattestedGuardMatches(r);
    RaisedInRequest(in', w, t);
    KeyFactors(in', w);
  }

  /** Every matching policy asks for one of these. */
  lemma MatchAsks(in': Inputs, w: Weights, t: Thresholds, p: P.Policy)
    requires P.Matching(DefaultPolicies(), RequestFor(in', w, t), p)
    ensures Asks(in', w, LevelOf(t, Score(in', w)), p.actions.decision, p.actions.createIncident, p.actions.alertSoc)
  {
    var d := DefaultPolicies();
    var i :| 0 <= i < |d| && d[i] == p;
    GuardsAsk(in', w, t);
    if i < 5 {
      var band := if i == 0 then Low else if i == 1 then Medium else if i == 2 then Elevated
                  else if i == 3 then High else Critical;
      assert p == BandPolicy(band);
      BandAsks(in', w, t, band);
    }
  }

  /** And each of these is asked for by a matching policy. */
  lemma AskMatches(in': Inputs, w: Weights, t: Thresholds, d: P.Decision, incident: bool, alert: bool)
    returns (p: P.Policy)
    requires Asks(in', w, LevelOf(t, Score(in', w)), d, incident, alert)
    ensures P.Matching(DefaultPolicies(), RequestFor(in', w, t), p)
    ensures p.actions.decision == d && p.actions.createIncident == incident && p.actions.alertSoc == alert
  {
    var l := LevelOf(t, Score(in', w));
    GuardsAsk(in', w, t);
    GuardsIn();
    if d == BandDecision(l) && incident == (l == Critical) && alert == (l == High || l == Critical) {
      BandIn(l);
      BandAsks(in', w, t, l);
      p := BandPolicy(l);
    } else if ResourceGuarded(in', w) && d == P.Restrict && incident && alert {
      p := RESOURCE_GUARD;
    } else if NewDeviceGuarded(in', w) && d == P.StepUpMfa && !incident && alert {
      p := NEW_DEVICE_GUARD;
    } else {
      p := UNATTESTED_GUARD;
    }
  }

  /** The decision is among those asked for, or ALLOW, and at least as severe as all of them; the flags
      are raised exactly if one asks. */
  ghost predicate Answers(in': Inputs, w: Weights, l: Level, r: P.Result) {
    && (forall d, i, a :: Asks(in', w, l, d, i, a) ==> P.Severity(d) <= P.Severity(r.decision))
    && (r.decision != P.Allow ==> exists i, a :: Asks(in', w, l, r.decision, i, a))
    && (r.createIncident <==> exists d, a :: Asks(in', w, l, d, true, a))
    && (r.alertSoc <==> exists d, i :: Asks(in', w, l, d, i, true))
  }

  lemma DefaultsAnswer(in': Inputs, w: Weights, t: Thresholds, r: P.Result)
    requires P.MostRestrictive(DefaultPolicies(), RequestFor(in', w, t), r)
    ensures Answers(in', w, LevelOf(t, Score(in', w)), r)
  {
    var l, request := LevelOf(t, Score(in', w)), RequestFor(in', w, t);
    forall d, i, a | Asks(in', w, l, d, i, a)
      ensures P.Severity(d) <= P.Severity(r.decision) && (i ==> r.createIncident) && (a ==> r.alertSoc)
    {
      var p := AskMatches(in', w, t, d, i, a);
    }
    forall p | P.Matching(DefaultPolicies(), request, p)
      ensures Asks(in', w, l, p.actions.decision, p.actions.createIncident, p.actions.alertSoc)
    {
      MatchAsks(in', w, t, p);
    }
    if r.decision != P.Allow {
      var p :| P.Matching(DefaultPolicies(), request, p) && p.actions.decision == r.decision;
    }
    if r.createIncident {
      var p :| P.Matching(DefaultPolicies(), request, p) && p.actions.createIncident;
      assert Asks(in', w, l, p.actions.decision, true, p.actions.alertSoc);
    }
    if r.alertSoc {
      var p :| P.Matching(DefaultPolicies(), request, p) && p.actions.alertSoc;
      assert Asks(in', w, l, p.actions.decision, p.actions.createIncident, true);
    }
  }

  lemma AnswerIs(in': Inputs, w: Weights, l: Level, r: P.Result)
    requires Answers(in', w, l, r)
    ensures r.decision
         == if UnattestedGuarded(in', w) then P.Deny
            else if l == Critical then P.Isolate
            else if ResourceGuarded(in', w) then P.Restrict
            else if l == High || NewDeviceGuarded(in', w) then P.StepUpMfa
            else if l == Elevated then P.Verify
            else if l == Medium then P.AllowMonitor
            else P.Allow
    ensures r.createIncident <==> l == Critical || ResourceGuarded(in', w) || UnattestedGuarded(in', w)
    ensures r.alertSoc <==> || l == High || l == Critical || ResourceGuarded(in', w)
                            || NewDeviceGuarded(in', w) || UnattestedGuarded(in', w)
  {
    assert Asks(in', w, l, BandDecision(l), l == Critical, l == High || l == Critical);
    assert ResourceGuarded(in', w) ==> Asks(in', w, l, P.Restrict, true, true);
    assert NewDeviceGuarded(in', w) ==> Asks(in', w, l, P.StepUpMfa, false, true);
    assert UnattestedGuarded(in', w) ==> Asks(in', w, l, P.Deny, true, true);
  }

  /** The shipped rule set in one place: which decision, incident and alert a session gets, by its band
      and the three guards. */
  lemma ShippedDecision(in': Inputs, w: Weights, t: Thresholds)
    ensures var (l, r) := (LevelOf(t, Score(in', w)), DecisionFor(in', w, t));
            && r.decision == (if UnattestedGuarded(in', w) then P.Deny
                              else if l == Critical then P.Isolate
                              else if ResourceGuarded(in', w) then P.Restrict
                              else if l == High || NewDeviceGuarded(in', w) then P.StepUpMfa
                              else if l == Elevated then P.Verify
                              else if l == Medium then P.AllowMonitor
                              else P.Allow)
            && (r.createIncident <==> l == Critical || ResourceGuarded(in', w) || UnattestedGuarded(in', w))
            && (r.alertSoc <==> || l == High || l == Critical || ResourceGuarded(in', w)
                                || NewDeviceGuarded(in', w) || UnattestedGuarded(in', w))
  {
    EngineDecidesDefaults(RequestFor(in', w, t));
    DefaultsAnswer(in', w, t, DecisionFor(in', w, t));
    AnswerIs(in', w, LevelOf(t, Score(in', w)), DecisionFor(in', w, t));
  }

  lemma SameMatchesSameMeaning(e: seq<P.Policy>, d: seq<P.Policy>, r: P.Request, result: P.Result)
    requires P.MostRestrictive(e, r, result) && forall p :: P.Matching(e, r, p) <==> P.Matching(d, r, p)
    ensures P.MostRestrictive(d, r, result)
  {
  }

  lemma RequestsHarsher(a: Inputs, b: Inputs, w: Weights, t: Thresholds)
    requires ValidWeights(w) && ValidThresholds(t) && AtLeastAsBad(a, b)
    ensures Harsher(RequestFor(a, w, t), LevelOf(t, Score(a, w)), a.sensitivity,
                    RequestFor(b, w, t), LevelOf(t, Score(b, w)), b.sensitivity)
  {
    ScoreIsMonotone(a, b, w);
    BandsAreMonotone(t, Score(a, w), Score(b, w));
    RaisedInRequest(a, w, t);
    RaisedInRequest(b, w, t);
    KeyFactors(a, w);
    KeyFactors(b, w);
  }

  /** Main theorem. Worsening any risk input, or raising the resource sensitivity, never lowers the
      score, the band, the recommended action, the severity of the shipped policies' decision, or
      the incident and alert flags, for all valid weights and thresholds. */
  lemma DecisionIsMonotone(a: Inputs, b: Inputs, w: Weights, t: Thresholds)
    requires ValidWeights(w) && ValidThresholds(t) && AtLeastAsBad(a, b)
    ensures Score(a, w) <= Score(b, w)
    ensures LevelRank(LevelOf(t, Score(a, w))) <= LevelRank(LevelOf(t, Score(b, w)))
    ensures ActionRank(RecommendedAction(LevelOf(t, Score(a, w))))
            <= ActionRank(RecommendedAction(LevelOf(t, Score(b, w))))
    ensures P.Severity(DecisionFor(a, w, t).decision) <= P.Severity(DecisionFor(b, w, t).decision)
    ensures DecisionFor(a, w, t).createIncident ==> DecisionFor(b, w, t).createIncident
    ensures DecisionFor(a, w, t).alertSoc ==> DecisionFor(b, w, t).alertSoc
  {
    ScoreIsMonotone(a, b, w);
    BandsAreMonotone(t, Score(a, w), Score(b, w));
    RequestsHarsher(a, b, w, t);
    EngineDecidesDefaults(RequestFor(a, w, t));
    EngineDecidesDefaults(RequestFor(b, w, t));
    DecisionsFollow(RequestFor(a, w, t), LevelOf(t, Score(a, w)), a.sensitivity,
                    RequestFor(b, w, t), LevelOf(t, Score(b, w)), b.sensitivity,
                    DecisionFor(a, w, t), DecisionFor(b, w, t));
  }

  lemma AddSix(a: seq<Signal>, b: seq<Signal>, c: seq<Signal>, d: seq<Signal>, e: seq<Signal>, f: seq<Signal>,
               w: Weights)
    ensures RawScore(a + (b + (c + (d + (e + f)))), w)
         == RawScore(a, w) + RawScore(b, w) + RawScore(c, w) + RawScore(d, w) + RawScore(e, w) + RawScore(f, w)
  {
    RawScoreConcat(e, f, w);
    RawScoreConcat(d, e + f, w);
    RawScoreConcat(c, d + (e + f), w);
    RawScoreConcat(b, c + (d + (e + f)), w);
    RawScoreConcat(a, b + (c + (d + (e + f))), w);
  }

  /** Signals of every dimension but the resource's. */
  function OtherSignals(in': Inputs): (seq<Signal>, seq<Signal>, seq<Signal>, seq<Signal>, seq<Signal>) {
    (IdentitySignals(in'), DeviceSignals(in'), BehaviourSignals(in'), NetworkSignals(in'), HistorySignals(in'))
  }

  function OtherPoints(o: (seq<Signal>, seq<Signal>, seq<Signal>, seq<Signal>, seq<Signal>), w: Weights): nat {
    RawScore(o.0, w) + RawScore(o.1, w) + RawScore(o.2, w) + RawScore(o.3, w) + RawScore(o.4, w)
  }

  lemma OthersIgnoreSensitivity(in': Inputs, s: Sensitivity)
    ensures OtherSignals(in'.(sensitivity := s)) == OtherSignals(in')
  {
  }

  /** The resource's points simply add to those of everything else. */
  lemma ResourcePointsAdd(in': Inputs, w: Weights)
    ensures RawScore(Signals(in'), w)
         == OtherPoints(OtherSignals(in'), w) + RawScore(ResourceSignals(in'.sensitivity), w)
  {
    var o := OtherSignals(in');
    AddSix(o.0, o.1, o.2, o.3, ResourceSignals(in'.sensitivity), o.4, w);
  }

  /* ----- from the device to the decision ----- */

  /** The forms of key protection the devices table admits; enrollment refuses every other. */
  predicate KnownProtection(protection: string) {
    protection == "software" || protection == "tpm" || protection == "windows-cert-store"
  }

  lemma TrimmedAlready(s: string)
    requires s != "" && !IsSpace(s[0]) && !IsSpace(s[|s| - 1])
    ensures TrimSpace(s) == s
  {
  }

  /** Known forms are already in normal form. */
  lemma ProtectionIsNormal(protection: string)
    requires KnownProtection(protection)
    ensures Posture.Normalize(protection) == protection
  {
    TrimmedAlready(protection);
    assert forall i :: 0 <= i < |protection| ==> LowerChar(protection[i]) == protection[i];
    assert ToLower(protection) == protection;
  }

  lemma NamesDiffer()
    ensures "software" != "tpm" && "software" != "windows-cert-store"
  {
    assert |"software"| == 8 && |"tpm"| == 3 && |"windows-cert-store"| == 18;
  }

  /** A known key is hardware-backed unless it is a software key. */
  lemma KeyKinds(c: Posture.DeviceContext)
    requires KnownProtection(c.keyProtection)
    ensures Posture.HardwareKey(c) <==> c.keyProtection != "software"
    ensures Posture.SoftwareKey(c) <==> c.keyProtection == "software"
  {
    ProtectionIsNormal(c.keyProtection);
    NamesDiffer();
  }

  /** The inputs `gather` reads about the device: the trust score stored when the posture was last
      reported, in the context `c` of that moment, the key protection, and the last heartbeat as of the
      evaluation. */
  function WithDevice(in': Inputs, s: Posture.Signals, c: Posture.DeviceContext, pw: Posture.Weights,
                      heartbeat: Option<int>): Inputs {
    in'.(deviceTrustScore := Some(Posture.Total(s, c, pw)), softwareKey := c.keyProtection == "software",
         agentLastHeartbeat := heartbeat)
  }

  /** At the evaluation the second device is heard from if the first is. */
  predicate HeardFromToo(in': Inputs, heartbeat: Option<int>, heartbeat': Option<int>) {
    Silent(in'.(agentLastHeartbeat := heartbeat')) ==> Silent(in'.(agentLastHeartbeat := heartbeat))
  }

  lemma BetterDeviceInputs(in': Inputs, pw: Posture.Weights, s: Posture.Signals, c: Posture.DeviceContext,
                           s': Posture.Signals, c': Posture.DeviceContext, h: Option<int>, h': Option<int>)
    requires Posture.ValidWeights(pw) && Posture.AtLeastAsGood(s, c, s', c') && HeardFromToo(in', h, h')
    requires KnownProtection(c.keyProtection) && KnownProtection(c'.keyProtection)
    ensures AtLeastAsBad(WithDevice(in', s', c', pw, h'), WithDevice(in', s, c, pw, h))
  {
    Posture.TrustIsMonotone(s, c, s', c', pw);
    SoftwareBefore(c, c');
    InputsNoWorse(in', Posture.Total(s, c, pw), Posture.Total(s', c', pw),
                  c.keyProtection == "software", c'.keyProtection == "software", h, h');
  }

  lemma SoftwareBefore(c: Posture.DeviceContext, c': Posture.DeviceContext)
    requires KnownProtection(c.keyProtection) && KnownProtection(c'.keyProtection)
    requires Posture.HardwareKey(c) ==> Posture.HardwareKey(c')
    ensures c'.keyProtection == "software" ==> c.keyProtection == "software"
  {
    KeyKinds(c);
    KeyKinds(c');
  }

  lemma InputsNoWorse(in': Inputs, trust: int, trust': int, software: bool, software': bool,
                      h: Option<int>, h': Option<int>)
    requires trust <= trust' && (software' ==> software) && HeardFromToo(in', h, h')
    ensures AtLeastAsBad(in'.(deviceTrustScore := Some(trust'), softwareKey := software', agentLastHeartbeat := h'),
                         in'.(deviceTrustScore := Some(trust), softwareKey := software, agentLastHeartbeat := h))
  {
  }

  /** Turning a control on, strengthening the key, a healthier agent or a newer system never raises a
      session's risk nor makes its decision harsher, through the stored trust score and through the
      device inputs the evaluator reads beside it. */
  lemma BetterDeviceNeverHarsher(in': Inputs, w: Weights, t: Thresholds, pw: Posture.Weights,
                                 s: Posture.Signals, c: Posture.DeviceContext,
                                 s': Posture.Signals, c': Posture.DeviceContext, h: Option<int>, h': Option<int>)
    requires ValidWeights(w) && ValidThresholds(t) && Posture.ValidWeights(pw)
    requires Posture.AtLeastAsGood(s, c, s', c') && HeardFromToo(in', h, h')
    requires KnownProtection(c.keyProtection) && KnownProtection(c'.keyProtection)
    ensures var before, after := WithDevice(in', s, c, pw, h), WithDevice(in', s', c', pw, h');
            && Score(after, w) <= Score(before, w)
            && LevelRank(LevelOf(t, Score(after, w))) <= LevelRank(LevelOf(t, Score(before, w)))
            && P.Severity(DecisionFor(after, w, t).decision) <= P.Severity(DecisionFor(before, w, t).decision)
            && (DecisionFor(after, w, t).createIncident ==> DecisionFor(before, w, t).createIncident)
            && (DecisionFor(after, w, t).alertSoc ==> DecisionFor(before, w, t).alertSoc)
  {
    BetterDeviceInputs(in', pw, s, c, s', c', h, h');
    DecisionIsMonotone(WithDevice(in', s', c', pw, h'), WithDevice(in', s, c, pw, h), w, t);
  }
}
