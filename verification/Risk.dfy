/** Risk scoring (backend/internal/risk/engine.go, backend/internal/risk/model.go).
    Floating point is modelled by reals. */
module Risk {
  import opened Common
  import opened Ordering

  datatype Dimension = Identity | Device | Behaviour | Network | Resource | History

  datatype Level = Low | Medium | Elevated | High | Critical

  datatype Action = Allow | AllowMonitor | Verify | StepUpMfa | Restrict | Isolate

  datatype Sensitivity = Public | Internal | Sensitive | CriticalResource

  datatype Code =
    | FirstSession | UnattestedSession | NewDevice | RecentlyEnrolled | NoPosture | LowDeviceTrust
    | SoftwareKey | AgentSilent | NoBaseline | UnusualLoginTime | AbnormalAccessVolume
    | UnfamiliarApplication | BehaviourAnomaly | UnknownNetwork | UnusualNetwork
    | CriticalResourceAccessed | SensitiveResourceAccessed | RecentIncident | RepeatedDenials

  /** The factor codes as they are stored and compared. */
  function Name(c: Code): string {
    match c
    case FirstSession => "FIRST_SESSION"
    case UnattestedSession => "UNATTESTED_SESSION"
    case NewDevice => "NEW_DEVICE"
    case RecentlyEnrolled => "RECENTLY_ENROLLED"
    case NoPosture => "NO_POSTURE"
    case LowDeviceTrust => "LOW_DEVICE_TRUST"
    case SoftwareKey => "SOFTWARE_KEY"
    case AgentSilent => "AGENT_SILENT"
    case NoBaseline => "NO_BASELINE"
    case UnusualLoginTime => "UNUSUAL_LOGIN_TIME"
    case AbnormalAccessVolume => "ABNORMAL_ACCESS_VOLUME"
    case UnfamiliarApplication => "UNFAMILIAR_APPLICATION"
    case BehaviourAnomaly => "BEHAVIOUR_ANOMALY"
    case UnknownNetwork => "UNKNOWN_NETWORK"
    case UnusualNetwork => "UNUSUAL_NETWORK"
    case CriticalResourceAccessed => "CRITICAL_RESOURCE"
    case SensitiveResourceAccessed => "SENSITIVE_RESOURCE"
    case RecentIncident => "RECENT_INCIDENT"
    case RepeatedDenials => "REPEATED_DENIALS"
  }

  /** Times are nanoseconds. */
  datatype Inputs = Inputs(
    now: int,
    firstEverSession: bool, sessionAttested: bool,
    deviceTrustScore: Option<int>, softwareKey: bool, deviceFirstSeen: bool,
    deviceEnrolledAt: Option<int>, agentLastHeartbeat: Option<int>,
    loginHourTypical: bool, baselineEstablished: bool, accessVolumeZ: real,
    unfamiliarApplication: bool, anomalyScore: real,
    networkFamiliar: bool, networkKnown: bool,
    sensitivity: Sensitivity,
    recentIncidents: int, recentDenials: int)

  datatype Weights = Weights(
    identity: real, device: real, behaviour: real, network: real, resource: real, history: real)

  predicate ValidWeights(w: Weights) {
    && 0.0 <= w.identity <= 5.0 && 0.0 <= w.device <= 5.0 && 0.0 <= w.behaviour <= 5.0
    && 0.0 <= w.network <= 5.0 && 0.0 <= w.resource <= 5.0 && 0.0 <= w.history <= 5.0
  }

  function ForDimension(w: Weights, d: Dimension): real {
    match d
    case Identity => w.identity
    case Device => w.device
    case Behaviour => w.behaviour
    case Network => w.network
    case Resource => w.resource
    case History => w.history
  }

  datatype Thresholds = Thresholds(low: int, medium: int, elevated: int, high: int)

  predicate ValidThresholds(t: Thresholds) {
    0 < t.low < t.medium < t.elevated < t.high < 100
  }

  function LevelOf(t: Thresholds, score: int): Level {
    if score <= t.low then Low
    else if score <= t.medium then Medium
    else if score <= t.elevated then Elevated
    else if score <= t.high then High
    else Critical
  }

  function RecommendedAction(l: Level): Action {
    match l
    case Low => Allow
    case Medium => AllowMonitor
    case Elevated => Verify
    case High => StepUpMfa
    case Critical => Isolate
  }

  /* ----- signals ----- */

  datatype Signal = Signal(code: Code, dimension: Dimension, points: real)

  function When(condition: bool, code: Code, dimension: Dimension, points: real): seq<Signal> {
    if condition then [Signal(code, dimension, points)] else []
  }

  function MinReal(a: real, b: real): real { if a < b then a else b }

  const HOURS_24 := 86_400_000_000_000
  const MINUTES_15 := 900_000_000_000

  predicate RecentEnrollment(in': Inputs) {
    in'.deviceEnrolledAt.Some? && in'.now - in'.deviceEnrolledAt.value < HOURS_24
  }

  predicate Silent(in': Inputs) {
    in'.agentLastHeartbeat.None? || in'.now - in'.agentLastHeartbeat.value > MINUTES_15
  }

  function TrustPoints(trust: int): real {
    MinReal((70 - trust) as real * 0.4, 20.0)
  }

  function VolumePoints(z: real): real {
    MinReal(12.0 + (z - 3.0) * 4.0, 22.0)
  }

  function IncidentPoints(n: int): real {
    MinReal(n as real * 6.0, 15.0)
  }

  function IdentitySignals(in': Inputs): seq<Signal> {
    When(in'.firstEverSession, FirstSession, Identity, 8.0)
    + When(!in'.sessionAttested, UnattestedSession, Identity, 30.0)
  }

  function PostureSignals(trust: Option<int>): seq<Signal> {
    if trust.None? then [Signal(NoPosture, Device, 12.0)]
    else When(trust.value < 70, LowDeviceTrust, Device, TrustPoints(trust.value))
  }

  function DeviceSignals(in': Inputs): seq<Signal> {
    When(in'.deviceFirstSeen, NewDevice, Device, 20.0)
    + (When(RecentEnrollment(in'), RecentlyEnrolled, Device, 6.0)
    + (PostureSignals(in'.deviceTrustScore)
    + (When(in'.softwareKey, SoftwareKey, Device, 3.0)
    + When(Silent(in'), AgentSilent, Device, 15.0))))
  }

  function BehaviourSignals(in': Inputs): seq<Signal> {
    if !in'.baselineEstablished then [Signal(NoBaseline, Behaviour, 5.0)]
    else
      When(!in'.loginHourTypical, UnusualLoginTime, Behaviour, 15.0)
      + (When(in'.accessVolumeZ >= 3.0, AbnormalAccessVolume, Behaviour, VolumePoints(in'.accessVolumeZ))
      + (When(in'.unfamiliarApplication, UnfamiliarApplication, Behaviour, 6.0)
      + When(in'.anomalyScore > 0.5, BehaviourAnomaly, Behaviour, (in'.anomalyScore - 0.5) * 20.0)))
  }

  function NetworkSignals(in': Inputs): seq<Signal> {
    if !in'.networkKnown then [Signal(UnknownNetwork, Network, 4.0)]
    else When(!in'.networkFamiliar, UnusualNetwork, Network, 12.0)
  }

  function ResourceSignals(s: Sensitivity): seq<Signal> {
    match s
    case CriticalResource => [Signal(CriticalResourceAccessed, Resource, 25.0)]
    case Sensitive => [Signal(SensitiveResourceAccessed, Resource, 12.0)]
    case _ => []
  }

  function HistorySignals(in': Inputs): seq<Signal> {
    When(in'.recentIncidents > 0, RecentIncident, History, IncidentPoints(in'.recentIncidents))
    + When(in'.recentDenials >= 3, RepeatedDenials, History, 8.0)
  }

  function Signals(in': Inputs): seq<Signal> {
    IdentitySignals(in') + (DeviceSignals(in') + (BehaviourSignals(in')
    + (NetworkSignals(in') + (ResourceSignals(in'.sensitivity) + HistorySignals(in')))))
  }

  /** `int(points*weight + 0.5)`: rounding of a non-negative product. */
  function Round(points: real, weight: real): int {
    (points * weight + 0.5).Floor
  }

  function Weighted(s: Signal, w: Weights): int {
    Round(s.points, ForDimension(w, s.dimension))
  }

  /* ----- factors ----- */

  datatype Factor = Factor(code: Code, dimension: Dimension, contribution: int)

  function FactorsOf(signals: seq<Signal>, w: Weights): seq<Factor> {
    if signals == [] then []
    else
      var rest, n := FactorsOf(signals[..|signals| - 1], w), Weighted(signals[|signals| - 1], w);
      if n <= 0 then rest
      else rest + [Factor(signals[|signals| - 1].code, signals[|signals| - 1].dimension, n)]
  }

  function Sum(factors: seq<Factor>): int {
    if factors == [] then 0 else Sum(factors[..|factors| - 1]) + factors[|factors| - 1].contribution
  }

  function DimensionSum(factors: seq<Factor>, d: Dimension): int {
    if factors == [] then 0
    else
      DimensionSum(factors[..|factors| - 1], d)
      + (if factors[|factors| - 1].dimension == d then factors[|factors| - 1].contribution else 0)
  }

  /** The sum of the rounded positive signal points. */
  function RawScore(signals: seq<Signal>, w: Weights): nat {
    if signals == [] then 0
    else RawScore(signals[..|signals| - 1], w) + Max(Weighted(signals[|signals| - 1], w), 0)
  }

  function Score(in': Inputs, w: Weights): nat {
    Min(RawScore(Signals(in'), w), 100)
  }

  predicate FactorLess(a: Factor, b: Factor) {
    if a.contribution != b.contribution then a.contribution > b.contribution
    else StrLess(Name(a.code), Name(b.code))
  }

  lemma FactorLessIsWeakOrder()
    ensures StrictWeakOrder(FactorLess)
  {
    forall x: Factor ensures !FactorLess(x, x) {
      StrLessIrreflexive(Name(x.code));
    }
    forall x: Factor, y: Factor, z: Factor | FactorLess(x, y) && FactorLess(y, z) ensures FactorLess(x, z) {
      if x.contribution == y.contribution == z.contribution {
        StrLessTransitive(Name(x.code), Name(y.code), Name(z.code));
      }
    }
    forall x: Factor, y: Factor, z: Factor | FactorLess(x, z) ensures FactorLess(x, y) || FactorLess(y, z) {
      NameBetween(Name(x.code), Name(y.code), Name(z.code));
    }
  }

  lemma NameBetween(a: string, b: string, c: string)
    ensures StrLess(a, c) ==> StrLess(a, b) || StrLess(b, c)
  {
    StrLessConnected(a, b);
    if StrLess(a, c) && StrLess(b, a) {
      StrLessTransitive(b, a, c);
    }
  }

  lemma {:induction false} SumAppend(s: seq<Factor>, f: Factor, d: Dimension)
    ensures Sum(s + [f]) == Sum(s) + f.contribution
    ensures DimensionSum(s + [f], d) == DimensionSum(s, d) + (if f.dimension == d then f.contribution else 0)
  {
    assert (s + [f])[..|s|] == s;
  }

  lemma {:induction false} FactorsSumToRawScore(signals: seq<Signal>, w: Weights)
    ensures Sum(FactorsOf(signals, w)) == RawScore(signals, w)
    ensures forall f :: f in FactorsOf(signals, w) ==> f.contribution > 0
  {
    if signals != [] {
      var init, last := signals[..|signals| - 1], signals[|signals| - 1];
      FactorsSumToRawScore(init, w);
      SumAppend(FactorsOf(init, w), Factor(last.code, last.dimension, Weighted(last, w)), last.dimension);
    }
  }

  lemma {:induction false} InsertSums(s: seq<Factor>, f: Factor, d: Dimension)
    ensures Sum(Insert(s, f, FactorLess)) == Sum(s) + f.contribution
    ensures DimensionSum(Insert(s, f, FactorLess), d)
         == DimensionSum(s, d) + (if f.dimension == d then f.contribution else 0)
  {
    if s != [] && FactorLess(f, s[|s| - 1]) {
      InsertSums(s[..|s| - 1], f, d);
      SumAppend(Insert(s[..|s| - 1], f, FactorLess), s[|s| - 1], d);
    } else {
      SumAppend(s, f, d);
    }
  }

  /** Sorting keeps the total and every dimension total. */
  lemma {:induction false} SortKeepsSums(s: seq<Factor>, d: Dimension)
    ensures Sum(StableSort(s, FactorLess)) == Sum(s)
    ensures DimensionSum(StableSort(s, FactorLess), d) == DimensionSum(s, d)
  {
    if s != [] {
      SortKeepsSums(s[..|s| - 1], d);
      InsertSums(StableSort(s[..|s| - 1], FactorLess), s[|s| - 1], d);
    }
  }

  lemma {:induction false} PatchFirstSums(s: seq<Factor>, excess: int, d: Dimension)
    requires s != []
    ensures var patched := s[0 := s[0].(contribution := s[0].contribution - excess)];
            && Sum(patched) == Sum(s) - excess
            && DimensionSum(patched, d) == DimensionSum(s, d) - (if s[0].dimension == d then excess else 0)
  {
    var patched := s[0 := s[0].(contribution := s[0].contribution - excess)];
    if |s| > 1 {
      PatchFirstSums(s[..|s| - 1], excess, d);
      assert patched[..|s| - 1] == s[..|s| - 1][0 := patched[0]];
    }
  }

  datatype Assessment = Assessment(
    score: int, level: Level, action: Action, factors: seq<Factor>, dimensions: map<Dimension, int>)

  /** Each dimension total is the sum of that dimension's factors. */
  ghost predicate Reconciled(dimensions: map<Dimension, int>, factors: seq<Factor>) {
    forall d :: (if d in dimensions then dimensions[d] else 0) == DimensionSum(factors, d)
  }

  /** The accumulation loop of `Evaluate`. */
  method Accumulate(factors: seq<Factor>) returns (score: int, dimensions: map<Dimension, int>)
    ensures score == Sum(factors) && Reconciled(dimensions, factors)
    ensures forall f :: f in factors ==> f.dimension in dimensions
  {
    score, dimensions := 0, map[];
    for i := 0 to |factors|
      invariant score == Sum(factors[..i]) && Reconciled(dimensions, factors[..i])
      invariant forall j :: 0 <= j < i ==> factors[j].dimension in dimensions
    {
      var f := factors[i];
      assert factors[..i + 1][..i] == factors[..i];
      score := score + f.contribution;
      var before := if f.dimension in dimensions then dimensions[f.dimension] else 0;
      dimensions := dimensions[f.dimension := before + f.contribution];
    }
    assert factors[..|factors|] == factors;
  }

  /** The `add` calls of `Evaluate`, in order. */
  method Collect(signals: seq<Signal>, w: Weights) returns (factors: seq<Factor>)
    ensures factors == FactorsOf(signals, w)
  {
    factors := [];
    for i := 0 to |signals|
      invariant factors == FactorsOf(signals[..i], w)
    {
      assert signals[..i + 1][..i] == signals[..i] && signals[..i + 1][i] == signals[i];
      var weighted := Weighted(signals[i], w);
      if weighted > 0 {
        factors := factors + [Factor(signals[i].code, signals[i].dimension, weighted)];
      }
    }
    assert signals[..|signals|] == signals;
  }

  /** Largest contribution first, equal ones by name. */
  ghost predicate Descending(factors: seq<Factor>) {
    forall i, j :: 0 <= i < j < |factors| ==> Precedes(factors[i], factors[j])
  }

  predicate Precedes(f: Factor, g: Factor) {
    f.contribution > g.contribution || (f.contribution == g.contribution && !StrLess(Name(g.code), Name(f.code)))
  }

  lemma SortedDescends(factors: seq<Factor>)
    requires Sorted(factors, FactorLess)
    ensures Descending(factors)
  {
    forall i, j | 0 <= i < j < |factors| ensures Precedes(factors[i], factors[j]) {
      assert !FactorLess(factors[j], factors[i]);
    }
  }

  /** `Engine.Evaluate`. Whether or not the clamp bites, the returned factors sum exactly to the
      score, are in order, name exactly the raised signals, and reconcile per dimension. */
  method Evaluate(in': Inputs, w: Weights, t: Thresholds) returns (a: Assessment)
    ensures a.score == Score(in', w)
    ensures a.level == LevelOf(t, a.score) && a.action == RecommendedAction(a.level)
    ensures Sum(a.factors) == a.score
    ensures Sorted(a.factors, FactorLess)
    ensures Descending(a.factors)
    ensures Reconciled(a.dimensions, a.factors)
    ensures CodesOf(a.factors) == CodesOf(FactorsOf(Signals(in'), w))
    ensures RawScore(Signals(in'), w) <= 100 ==> multiset(a.factors) == multiset(FactorsOf(Signals(in'), w))
    ensures RawScore(Signals(in'), w) > 100 ==>
              multiset(a.factors) == multiset(AbsorbExcess(StableSort(FactorsOf(Signals(in'), w), FactorLess),
                                                           RawScore(Signals(in'), w) - 100))
  {
    var signals := Signals(in');
    var raised := Collect(signals, w);
    FactorsSumToRawScore(signals, w);
    var factors := raised;
    var score, dimensions := Accumulate(factors);
    if score > 100 {
      factors, dimensions := ClampLargest(factors, dimensions, score - 100);
      score := 100;
    }
    ghost var unsorted := factors;
    factors := StableSort(factors, FactorLess);
    SortKeepsTotals(unsorted, dimensions);
    FactorLessIsWeakOrder();
    SortSorts(unsorted, FactorLess);
    SortedDescends(factors);
    SortPermutes(unsorted, FactorLess);
    var level := LevelOf(t, score);
    a := Assessment(score, level, RecommendedAction(level), factors, dimensions);
  }

  ghost function CodesOf(factors: seq<Factor>): multiset<Code> {
    if factors == [] then multiset{} else CodesOf(factors[..|factors| - 1]) + multiset{factors[|factors| - 1].code}
  }

  lemma {:induction false} CodesAppend(s: seq<Factor>, f: Factor)
    ensures CodesOf(s + [f]) == CodesOf(s) + multiset{f.code}
  {
    assert (s + [f])[..|s|] == s;
  }

  lemma {:induction false} InsertKeepsCodes(s: seq<Factor>, f: Factor)
    ensures CodesOf(Insert(s, f, FactorLess)) == CodesOf(s) + multiset{f.code}
  {
    if s != [] && FactorLess(f, s[|s| - 1]) {
      InsertKeepsCodes(s[..|s| - 1], f);
      CodesAppend(Insert(s[..|s| - 1], f, FactorLess), s[|s| - 1]);
    } else {
      CodesAppend(s, f);
    }
  }

  lemma {:induction false} SortKeepsCodes(s: seq<Factor>)
    ensures CodesOf(StableSort(s, FactorLess)) == CodesOf(s)
  {
    if s != [] {
      SortKeepsCodes(s[..|s| - 1]);
      InsertKeepsCodes(StableSort(s[..|s| - 1], FactorLess), s[|s| - 1]);
    }
  }

  lemma {:induction false} PatchFirstKeepsCodes(s: seq<Factor>, f: Factor)
    requires s != [] && f.code == s[0].code
    ensures CodesOf(s[0 := f]) == CodesOf(s)
  {
    if |s| > 1 {
      PatchFirstKeepsCodes(s[..|s| - 1], f);
      assert s[0 := f][..|s| - 1] == s[..|s| - 1][0 := f];
    }
  }

  lemma SortKeepsTotals(factors: seq<Factor>, dimensions: map<Dimension, int>)
    ensures Sum(StableSort(factors, FactorLess)) == Sum(factors)
    ensures CodesOf(StableSort(factors, FactorLess)) == CodesOf(factors)
    ensures Reconciled(dimensions, factors) ==> Reconciled(dimensions, StableSort(factors, FactorLess))
  {
    SortKeepsCodes(factors);
    SortKeepsSums(factors, Identity);
    forall d ensures DimensionSum(StableSort(factors, FactorLess), d) == DimensionSum(factors, d) {
      SortKeepsSums(factors, d);
    }
  }

  lemma PatchFirstReconciles(s: seq<Factor>, dimensions: map<Dimension, int>, excess: int, patched: Factor)
    requires s != [] && Reconciled(dimensions, s) && s[0].dimension in dimensions
    requires patched == s[0].(contribution := s[0].contribution - excess)
    ensures Reconciled(dimensions[s[0].dimension := dimensions[s[0].dimension] - excess], s[0 := patched])
    ensures Sum(s[0 := patched]) == Sum(s) - excess
  {
    var totals := dimensions[s[0].dimension := dimensions[s[0].dimension] - excess];
    PatchFirstSums(s, excess, Identity);
    forall d ensures (if d in totals then totals[d] else 0) == DimensionSum(s[0 := patched], d) {
      PatchFirstSums(s, excess, d);
      assert (if d in dimensions then dimensions[d] else 0) == DimensionSum(s, d);
    }
  }

  lemma FirstSortedIsMember(factors: seq<Factor>)
    requires factors != []
    ensures |StableSort(factors, FactorLess)| == |factors| && StableSort(factors, FactorLess)[0] in factors
  {
    SortPermutes(factors, FactorLess);
    assert StableSort(factors, FactorLess)[0] in multiset(StableSort(factors, FactorLess));
  }

  /** The first factor, the largest one of a sorted list, pays for the clamp. */
  function AbsorbExcess(sorted: seq<Factor>, excess: int): seq<Factor> {
    if sorted == [] then [] else sorted[0 := sorted[0].(contribution := sorted[0].contribution - excess)]
  }

  /** The factor that pays is a largest one. */
  lemma LargestPays(factors: seq<Factor>)
    requires factors != []
    ensures StableSort(factors, FactorLess)[0] in factors
    ensures forall f :: f in factors ==> f.contribution <= StableSort(factors, FactorLess)[0].contribution
  {
    var sorted := StableSort(factors, FactorLess);
    FirstSortedIsMember(factors);
    FactorLessIsWeakOrder();
    SortSorts(factors, FactorLess);
    SortPermutes(factors, FactorLess);
    forall f | f in factors ensures f.contribution <= sorted[0].contribution {
      assert f in multiset(factors) && f in multiset(sorted);
      var i :| 0 <= i < |sorted| && sorted[i] == f;
      assert i > 0 ==> !FactorLess(sorted[i], sorted[0]);
    }
  }

  /** When the sum exceeds 100 the largest factor absorbs the difference. */
  method ClampLargest(factors: seq<Factor>, dimensions: map<Dimension, int>, excess: int)
    returns (clamped: seq<Factor>, totals: map<Dimension, int>)
    requires factors != [] && Reconciled(dimensions, factors)
    requires forall f :: f in factors ==> f.dimension in dimensions
    ensures Sum(clamped) == Sum(factors) - excess && Reconciled(totals, clamped)
    ensures CodesOf(clamped) == CodesOf(factors)
    ensures clamped == AbsorbExcess(StableSort(factors, FactorLess), excess)
  {
    FirstSortedIsMember(factors);
    SortKeepsTotals(factors, dimensions);
    clamped, totals := PatchFirst(StableSort(factors, FactorLess), dimensions, excess);
  }

  method PatchFirst(sorted: seq<Factor>, dimensions: map<Dimension, int>, excess: int)
    returns (clamped: seq<Factor>, totals: map<Dimension, int>)
    requires sorted != [] && Reconciled(dimensions, sorted) && sorted[0].dimension in dimensions
    ensures Sum(clamped) == Sum(sorted) - excess && Reconciled(totals, clamped)
    ensures CodesOf(clamped) == CodesOf(sorted)
    ensures clamped == AbsorbExcess(sorted, excess)
  {
    var largest := sorted[0];
    var patched := largest.(contribution := largest.contribution - excess);
    PatchFirstReconciles(sorted, dimensions, excess, patched);
    PatchFirstKeepsCodes(sorted, patched);
    clamped := sorted[0 := patched];
    totals := dimensions[largest.dimension := dimensions[largest.dimension] - excess];
  }
}
