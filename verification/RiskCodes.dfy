/** What each risk factor code stands for (backend/internal/risk/engine.go): which input raises it,
    what it is worth, and that the score is the sum over the codes and nothing else. */
module RiskCodes {
  import opened Common
  import opened Risk

  /** The points a code is charged with for these inputs, before weighting, if it is raised at all.
      Times are nanoseconds: 24 hours and 15 minutes. */
  function Charge(in': Inputs, c: Code): Option<real> {
    match c
    case FirstSession => Flat(in'.firstEverSession, 8.0)
    case UnattestedSession => Flat(!in'.sessionAttested, 30.0)
    case NewDevice => Flat(in'.deviceFirstSeen, 20.0)
    case RecentlyEnrolled =>
      Flat(in'.deviceEnrolledAt.Some? && in'.now - in'.deviceEnrolledAt.value < 86_400_000_000_000, 6.0)
    case NoPosture => Flat(in'.deviceTrustScore.None?, 12.0)
    case LowDeviceTrust =>
      if in'.deviceTrustScore.Some? && in'.deviceTrustScore.value < 70
      then Some(AtMost(20.0, (70 - in'.deviceTrustScore.value) as real * 0.4)) else None
    case SoftwareKey => Flat(in'.softwareKey, 3.0)
    case AgentSilent =>
      Flat(in'.agentLastHeartbeat.None? || in'.now - in'.agentLastHeartbeat.value > 900_000_000_000, 15.0)
    case NoBaseline => Flat(!in'.baselineEstablished, 5.0)
    case UnusualLoginTime => Flat(in'.baselineEstablished && !in'.loginHourTypical, 15.0)
    case AbnormalAccessVolume =>
      if in'.baselineEstablished && in'.accessVolumeZ >= 3.0
      then Some(AtMost(22.0, 12.0 + (in'.accessVolumeZ - 3.0) * 4.0)) else None
    case UnfamiliarApplication => Flat(in'.baselineEstablished && in'.unfamiliarApplication, 6.0)
    case BehaviourAnomaly =>
      if in'.baselineEstablished && in'.anomalyScore > 0.5 then Some((in'.anomalyScore - 0.5) * 20.0) else None
    case UnknownNetwork => Flat(!in'.networkKnown, 4.0)
    case UnusualNetwork => Flat(in'.networkKnown && !in'.networkFamiliar, 12.0)
    case CriticalResourceAccessed => Flat(in'.sensitivity == CriticalResource, 25.0)
    case SensitiveResourceAccessed => Flat(in'.sensitivity == Sensitive, 12.0)
    case RecentIncident =>
      if in'.recentIncidents > 0 then Some(AtMost(15.0, in'.recentIncidents as real * 6.0)) else None
    case RepeatedDenials => Flat(in'.recentDenials >= 3, 8.0)
  }

  function Flat(raised: bool, points: real): Option<real> {
    if raised then Some(points) else None
  }

  function AtMost(bound: real, x: real): real {
    if x > bound then bound else x
  }

  function DimensionOf(c: Code): Dimension {
    match c
    case FirstSession | UnattestedSession => Identity
    case NewDevice | RecentlyEnrolled | NoPosture | LowDeviceTrust | SoftwareKey | AgentSilent => Device
    case NoBaseline | UnusualLoginTime | AbnormalAccessVolume | UnfamiliarApplication | BehaviourAnomaly => Behaviour
    case UnknownNetwork | UnusualNetwork => Network
    case CriticalResourceAccessed | SensitiveResourceAccessed => Resource
    case RecentIncident | RepeatedDenials => History
  }

  function WeightOf(w: Weights, c: Code): real {
    match DimensionOf(c)
    case Identity => w.identity
    case Device => w.device
    case Behaviour => w.behaviour
    case Network => w.network
    case Resource => w.resource
    case History => w.history
  }

  /** The signal of a code, if it is raised. */
  function Expected(in': Inputs, c: Code): seq<Signal> {
    match Charge(in', c)
    case None => []
    case Some(points) => [Signal(c, DimensionOf(c), points)]
  }

  /* ----- the signals are those of the nineteen codes, in order ----- */

  const IDENTITY_CODES: seq<Code> := [FirstSession, UnattestedSession]
  const DEVICE_CODES: seq<Code> :=
    [NewDevice, RecentlyEnrolled, NoPosture, LowDeviceTrust, SoftwareKey, AgentSilent]
  const BEHAVIOUR_CODES: seq<Code> :=
    [NoBaseline, UnusualLoginTime, AbnormalAccessVolume, UnfamiliarApplication, BehaviourAnomaly]
  const NETWORK_CODES: seq<Code> := [UnknownNetwork, UnusualNetwork]
  const RESOURCE_CODES: seq<Code> := [CriticalResourceAccessed, SensitiveResourceAccessed]
  const HISTORY_CODES: seq<Code> := [RecentIncident, RepeatedDenials]

  const ALL_CODES: seq<Code> :=
    [FirstSession, UnattestedSession, NewDevice, RecentlyEnrolled, NoPosture, LowDeviceTrust, SoftwareKey, AgentSilent,
     NoBaseline, UnusualLoginTime, AbnormalAccessVolume, UnfamiliarApplication, BehaviourAnomaly, UnknownNetwork,
     UnusualNetwork, CriticalResourceAccessed, SensitiveResourceAccessed, RecentIncident, RepeatedDenials]

  /** The signals of these codes. */
  function SignalsOf(in': Inputs, codes: seq<Code>): seq<Signal> {
    if codes == [] then [] else Expected(in', codes[0]) + SignalsOf(in', codes[1..])
  }

  lemma {:induction false} SignalsOfConcat(in': Inputs, a: seq<Code>, b: seq<Code>)
    ensures SignalsOf(in', a + b) == SignalsOf(in', a) + SignalsOf(in', b)
  {
    if a == [] {
      assert a + b == b;
    } else {
      assert (a + b)[1..] == a[1..] + b;
      SignalsOfConcat(in', a[1..], b);
      assert Expected(in', a[0]) + (SignalsOf(in', a[1..]) + SignalsOf(in', b))
          == Expected(in', a[0]) + SignalsOf(in', a[1..]) + SignalsOf(in', b);
    }
  }

  lemma SignalsOfOne(in': Inputs, a: Code)
    ensures SignalsOf(in', [a]) == Expected(in', a)
  {
    assert [a][1..] == [];
  }

  lemma SignalsOfTwo(in': Inputs, a: Code, b: Code)
    ensures SignalsOf(in', [a, b]) == Expected(in', a) + Expected(in', b)
  {
    assert [a, b][1..] == [b];
    SignalsOfOne(in', b);
  }

  lemma SignalsOfFour(in': Inputs, a: Code, b: Code, c: Code, d: Code)
    ensures SignalsOf(in', [a, b, c, d])
         == Expected(in', a) + (Expected(in', b) + (Expected(in', c) + Expected(in', d)))
  {
    assert [a, b, c, d][1..] == [b, c, d] && [b, c, d][1..] == [c, d];
    SignalsOfTwo(in', c, d);
  }

  lemma IdentityByCode(in': Inputs)
    ensures IdentitySignals(in') == SignalsOf(in', IDENTITY_CODES)
  {
    SignalsOfTwo(in', FirstSession, UnattestedSession);
  }

  lemma PostureByCode(in': Inputs)
    ensures PostureSignals(in'.deviceTrustScore) == SignalsOf(in', [NoPosture, LowDeviceTrust])
  {
    SignalsOfTwo(in', NoPosture, LowDeviceTrust);
  }

  lemma DeviceByCode(in': Inputs)
    ensures DeviceSignals(in') == SignalsOf(in', DEVICE_CODES)
  {
    PostureByCode(in');
    var front: seq<Code>, middle: seq<Code> := [NewDevice, RecentlyEnrolled], [NoPosture, LowDeviceTrust];
    var back: seq<Code> := [SoftwareKey, AgentSilent];
    SignalsOfTwo(in', NewDevice, RecentlyEnrolled);
    SignalsOfTwo(in', SoftwareKey, AgentSilent);
    SignalsOfConcat(in', middle, back);
    SignalsOfConcat(in', front, middle + back);
    assert front + (middle + back) == DEVICE_CODES;
    DevicePieces(in');
    Regroup(Expected(in', NewDevice), Expected(in', RecentlyEnrolled), SignalsOf(in', middle + back));
  }

  lemma Regroup(a: seq<Signal>, b: seq<Signal>, c: seq<Signal>)
    ensures a + (b + c) == a + b + c
  {
  }

  lemma DevicePieces(in': Inputs)
    ensures When(in'.deviceFirstSeen, NewDevice, Device, 20.0) == Expected(in', NewDevice)
    ensures When(RecentEnrollment(in'), RecentlyEnrolled, Device, 6.0) == Expected(in', RecentlyEnrolled)
    ensures When(in'.softwareKey, SoftwareKey, Device, 3.0) == Expected(in', SoftwareKey)
    ensures When(Silent(in'), AgentSilent, Device, 15.0) == Expected(in', AgentSilent)
  {
  }

  lemma BehaviourPieces(in': Inputs)
    requires in'.baselineEstablished
    ensures When(!in'.loginHourTypical, UnusualLoginTime, Behaviour, 15.0) == Expected(in', UnusualLoginTime)
    ensures When(in'.accessVolumeZ >= 3.0, AbnormalAccessVolume, Behaviour, VolumePoints(in'.accessVolumeZ))
         == Expected(in', AbnormalAccessVolume)
    ensures When(in'.unfamiliarApplication, UnfamiliarApplication, Behaviour, 6.0)
         == Expected(in', UnfamiliarApplication)
    ensures When(in'.anomalyScore > 0.5, BehaviourAnomaly, Behaviour, (in'.anomalyScore - 0.5) * 20.0)
         == Expected(in', BehaviourAnomaly)
  {
  }

  lemma BehaviourByCode(in': Inputs)
    ensures BehaviourSignals(in') == SignalsOf(in', BEHAVIOUR_CODES)
  {
    assert BEHAVIOUR_CODES[1..] == [UnusualLoginTime, AbnormalAccessVolume, UnfamiliarApplication, BehaviourAnomaly];
    if in'.baselineEstablished {
      KnownBehaviour(in');
    } else {
      UnknownBehaviour(in');
    }
  }

  lemma KnownBehaviour(in': Inputs)
    requires in'.baselineEstablished
    ensures BehaviourSignals(in')
         == SignalsOf(in', [UnusualLoginTime, AbnormalAccessVolume, UnfamiliarApplication, BehaviourAnomaly])
    ensures Expected(in', NoBaseline) == []
  {
    SignalsOfFour(in', UnusualLoginTime, AbnormalAccessVolume, UnfamiliarApplication, BehaviourAnomaly);
    BehaviourPieces(in');
  }

  lemma UnknownBehaviour(in': Inputs)
    requires !in'.baselineEstablished
    ensures SignalsOf(in', [UnusualLoginTime, AbnormalAccessVolume, UnfamiliarApplication, BehaviourAnomaly]) == []
    ensures BehaviourSignals(in') == Expected(in', NoBaseline)
  {
    SignalsOfFour(in', UnusualLoginTime, AbnormalAccessVolume, UnfamiliarApplication, BehaviourAnomaly);
  }

  lemma NetworkByCode(in': Inputs)
    ensures NetworkSignals(in') == SignalsOf(in', NETWORK_CODES)
  {
    SignalsOfTwo(in', UnknownNetwork, UnusualNetwork);
  }

  lemma ResourceByCode(in': Inputs)
    ensures ResourceSignals(in'.sensitivity) == SignalsOf(in', RESOURCE_CODES)
  {
    SignalsOfTwo(in', CriticalResourceAccessed, SensitiveResourceAccessed);
  }

  lemma HistoryByCode(in': Inputs)
    ensures HistorySignals(in') == SignalsOf(in', HISTORY_CODES)
  {
    SignalsOfTwo(in', RecentIncident, RepeatedDenials);
  }

  lemma AllCodesInOrder()
    ensures ALL_CODES
         == IDENTITY_CODES + (DEVICE_CODES + (BEHAVIOUR_CODES + (NETWORK_CODES + (RESOURCE_CODES + HISTORY_CODES))))
  {
  }

  lemma SignalsOfSix(in': Inputs, a: seq<Code>, b: seq<Code>, p: seq<Code>, q: seq<Code>, x: seq<Code>, y: seq<Code>)
    ensures SignalsOf(in', a + (b + (p + (q + (x + y)))))
         == SignalsOf(in', a) + (SignalsOf(in', b) + (SignalsOf(in', p) + (SignalsOf(in', q)
            + (SignalsOf(in', x) + SignalsOf(in', y)))))
  {
    SignalsOfConcat(in', a, b + (p + (q + (x + y))));
    SignalsOfConcat(in', b, p + (q + (x + y)));
    SignalsOfConcat(in', p, q + (x + y));
    SignalsOfConcat(in', q, x + y);
    SignalsOfConcat(in', x, y);
  }

  /** The engine's signals are those of the nineteen codes, each at most once and in this order. */
  lemma SignalsByCode(in': Inputs)
    ensures Signals(in') == SignalsOf(in', ALL_CODES)
  {
    AllCodesInOrder();
    SignalsOfSix(in', IDENTITY_CODES, DEVICE_CODES, BEHAVIOUR_CODES, NETWORK_CODES, RESOURCE_CODES, HISTORY_CODES);
    IdentityByCode(in');
    DeviceByCode(in');
    BehaviourByCode(in');
    NetworkByCode(in');
    ResourceByCode(in');
    HistoryByCode(in');
  }

  /* ----- factors by code ----- */

  /** What a code contributes: its points, weighted and rounded. */
  function Contribution(in': Inputs, w: Weights, c: Code): int {
    match Charge(in', c)
    case None => 0
    case Some(points) => Round(points, WeightOf(w, c))
  }

  /** Rounding is to the nearest integer, halves up. */
  lemma RoundIsNearest(points: real, weight: real)
    ensures Round(points, weight) as real - 0.5 <= points * weight < Round(points, weight) as real + 0.5
  {
  }

  /** The factor of a code: one if it contributes something positive, none otherwise. */
  function ExpectedFactor(in': Inputs, w: Weights, c: Code): seq<Factor> {
    var n := Contribution(in', w, c);
    if n > 0 then [Factor(c, DimensionOf(c), n)] else []
  }

  lemma ExpectedWeighs(in': Inputs, w: Weights, c: Code)
    ensures FactorsOf(Expected(in', c), w) == ExpectedFactor(in', w, c)
    ensures RawScore(Expected(in', c), w) == Max(Contribution(in', w, c), 0)
  {
    if Charge(in', c).Some? {
      var s := Expected(in', c);
      assert s[..0] == [];
      WeightMatches(w, c);
    }
  }

  lemma WeightMatches(w: Weights, c: Code)
    ensures ForDimension(w, DimensionOf(c)) == WeightOf(w, c)
  {
  }

  lemma {:induction false} RawScoreConcat(a: seq<Signal>, b: seq<Signal>, w: Weights)
    ensures RawScore(a + b, w) == RawScore(a, w) + RawScore(b, w)
  {
    if b == [] {
      assert a + b == a;
    } else {
      assert (a + b)[..|a + b| - 1] == a + b[..|b| - 1];
      RawScoreConcat(a, b[..|b| - 1], w);
    }
  }

  lemma {:induction false} FactorsConcat(a: seq<Signal>, b: seq<Signal>, w: Weights)
    ensures FactorsOf(a + b, w) == FactorsOf(a, w) + FactorsOf(b, w)
  {
    if b == [] {
      assert a + b == a;
    } else {
      assert (a + b)[..|a + b| - 1] == a + b[..|b| - 1];
      FactorsConcat(a, b[..|b| - 1], w);
    }
  }

  function OnlyFactors(factors: seq<Factor>, c: Code): seq<Factor> {
    if factors == [] then []
    else (if factors[0].code == c then [factors[0]] else []) + OnlyFactors(factors[1..], c)
  }

  lemma {:induction false} OnlyFactorsConcat(a: seq<Factor>, b: seq<Factor>, c: Code)
    ensures OnlyFactors(a + b, c) == OnlyFactors(a, c) + OnlyFactors(b, c)
  {
    if a == [] {
      assert a + b == b;
    } else {
      assert (a + b)[1..] == a[1..] + b;
      OnlyFactorsConcat(a[1..], b, c);
    }
  }

  ghost predicate NoRepeats(codes: seq<Code>) {
    forall i, j :: 0 <= i < j < |codes| ==> codes[i] != codes[j]
  }

  lemma OnlyExpected(in': Inputs, w: Weights, code: Code, c: Code)
    ensures OnlyFactors(ExpectedFactor(in', w, code), c) == if code == c then ExpectedFactor(in', w, c) else []
  {
    var f := ExpectedFactor(in', w, code);
    if f != [] {
      assert f[1..] == [];
    }
  }

  lemma {:induction false} FactorsOfCodes(in': Inputs, w: Weights, codes: seq<Code>, c: Code)
    requires NoRepeats(codes)
    ensures OnlyFactors(FactorsOf(SignalsOf(in', codes), w), c) == if c in codes then ExpectedFactor(in', w, c) else []
  {
    if codes != [] {
      var first, rest := Expected(in', codes[0]), SignalsOf(in', codes[1..]);
      FactorsOfCodes(in', w, codes[1..], c);
      FactorsConcat(first, rest, w);
      ExpectedWeighs(in', w, codes[0]);
      OnlyFactorsConcat(FactorsOf(first, w), FactorsOf(rest, w), c);
      OnlyExpected(in', w, codes[0], c);
      assert c in codes <==> c == codes[0] || c in codes[1..];
      assert codes[0] !in codes[1..];
    }
  }

  function CodeIndex(c: Code): (i: nat)
    ensures i < 19 && ALL_CODES[i] == c
  {
    match c
    case FirstSession => 0
    case UnattestedSession => 1
    case NewDevice => 2
    case RecentlyEnrolled => 3
    case NoPosture => 4
    case LowDeviceTrust => 5
    case SoftwareKey => 6
    case AgentSilent => 7
    case NoBaseline => 8
    case UnusualLoginTime => 9
    case AbnormalAccessVolume => 10
    case UnfamiliarApplication => 11
    case BehaviourAnomaly => 12
    case UnknownNetwork => 13
    case UnusualNetwork => 14
    case CriticalResourceAccessed => 15
    case SensitiveResourceAccessed => 16
    case RecentIncident => 17
    case RepeatedDenials => 18
  }

  lemma CodeAt(i: nat)
    requires i < 19
    ensures CodeIndex(ALL_CODES[i]) == i
  {
  }

  lemma AllCodesListed(c: Code)
    ensures c in ALL_CODES && NoRepeats(ALL_CODES)
  {
    assert ALL_CODES[CodeIndex(c)] == c;
    forall i, j | 0 <= i < j < |ALL_CODES| ensures ALL_CODES[i] != ALL_CODES[j] {
      CodeAt(i);
      CodeAt(j);
    }
  }

  /** Main theorem: for every input, weighting and code, the engine raises exactly one factor with that
      code if its contribution is positive and none otherwise, in its dimension and with exactly that
      contribution. */
  lemma FactorOfCode(in': Inputs, w: Weights, c: Code)
    ensures OnlyFactors(FactorsOf(Signals(in'), w), c) == ExpectedFactor(in', w, c)
  {
    SignalsByCode(in');
    AllCodesListed(c);
    FactorsOfCodes(in', w, ALL_CODES, c);
  }

  lemma {:induction false} OnlyFactorsMembers(factors: seq<Factor>, f: Factor)
    ensures f in factors <==> f in OnlyFactors(factors, f.code)
  {
    if factors != [] {
      OnlyFactorsMembers(factors[1..], f);
      assert factors == [factors[0]] + factors[1..];
    }
  }

  /** The same, factor by factor. */
  lemma FactorIsRaisedIff(in': Inputs, w: Weights, f: Factor)
    ensures f in FactorsOf(Signals(in'), w)
       <==> f.contribution > 0 && f.contribution == Contribution(in', w, f.code) && f.dimension == DimensionOf(f.code)
  {
    OnlyFactorsMembers(FactorsOf(Signals(in'), w), f);
    FactorOfCode(in', w, f.code);
  }

  /* ----- the score by code ----- */

  /** The contributions of these codes, negative ones counting nothing. */
  function Contributions(in': Inputs, w: Weights, codes: seq<Code>): nat {
    if codes == [] then 0 else Max(Contribution(in', w, codes[0]), 0) + Contributions(in', w, codes[1..])
  }

  lemma {:induction false} RawScoreOfCodes(in': Inputs, w: Weights, codes: seq<Code>)
    ensures RawScore(SignalsOf(in', codes), w) == Contributions(in', w, codes)
  {
    if codes != [] {
      RawScoreOfCodes(in', w, codes[1..]);
      RawScoreConcat(Expected(in', codes[0]), SignalsOf(in', codes[1..]), w);
      ExpectedWeighs(in', w, codes[0]);
    }
  }

  /** The score is the sum of the contributions of the nineteen codes, cut off at 100. */
  lemma ScoreByCode(in': Inputs, w: Weights)
    ensures RawScore(Signals(in'), w) == Contributions(in', w, ALL_CODES)
    ensures Score(in', w) == Min(Contributions(in', w, ALL_CODES), 100)
  {
    SignalsByCode(in');
    RawScoreOfCodes(in', w, ALL_CODES);
  }

  /** The bands a score falls into and the action each recommends. */
  lemma BandMeaning(t: Thresholds, score: int)
    requires ValidThresholds(t)
    ensures LevelOf(t, score) == Low <==> score <= t.low
    ensures LevelOf(t, score) == Medium <==> t.low < score <= t.medium
    ensures LevelOf(t, score) == Elevated <==> t.medium < score <= t.elevated
    ensures LevelOf(t, score) == High <==> t.elevated < score <= t.high
    ensures LevelOf(t, score) == Critical <==> t.high < score
    ensures RecommendedAction(LevelOf(t, score))
         == if score <= t.low then Allow else if score <= t.medium then AllowMonitor
            else if score <= t.elevated then Verify else if score <= t.high then StepUpMfa else Isolate
  {
  }
}
