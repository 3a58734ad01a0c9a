/** Behavioural baselines (backend/internal/behaviour/baseline.go). Floating point is modelled by
    reals and the square root by its defining equation. */
module Baseline {
  import opened Ordering
  import C = CivilTime

  const MINIMUM_OBSERVATIONS := 5

  /** Times are seconds since the epoch. */
  datatype Observation = Observation(
    startedAt: int, device: string, applications: seq<string>, network: string, eventCount: int)

  datatype Profile = Profile(
    observationCount: nat, loginHours: seq<nat>, knownDevices: seq<string>,
    knownApplications: seq<string>, knownNetworks: seq<string>,
    accessRateMean: real, accessRateStdDev: real, established: bool)

  function HourOf(startedAt: int): (h: nat)
    ensures h < 24
  {
    startedAt / 3600 % 24
  }

  /* ----- statistics ----- */

  function Sum(xs: seq<real>): real {
    if xs == [] then 0.0 else Sum(xs[..|xs| - 1]) + xs[|xs| - 1]
  }

  /** Sum of squared deviations from `m`. */
  function SquaredDeviations(xs: seq<real>, m: real): real {
    if xs == [] then 0.0
    else SquaredDeviations(xs[..|xs| - 1], m) + (xs[|xs| - 1] - m) * (xs[|xs| - 1] - m)
  }

  function Mean(xs: seq<real>): real {
    if xs == [] then 0.0 else Sum(xs) / |xs| as real
  }

  function Variance(xs: seq<real>): real {
    if xs == [] then 0.0 else SquaredDeviations(xs, Mean(xs)) / |xs| as real
  }

  type Root = real -> real

  ghost predicate IsSquareRoot(root: Root) {
    forall x :: x >= 0.0 ==> root(x) >= 0.0 && root(x) * root(x) == x
  }

  function StdDev(xs: seq<real>, root: Root): real {
    if |xs| < 2 then 0.0 else root(Variance(xs))
  }

  method MeanAndStdDev(xs: seq<real>, root: Root) returns (mean: real, stdDev: real)
    ensures mean == Mean(xs) && stdDev == StdDev(xs, root)
  {
    if |xs| == 0 {
      return 0.0, 0.0;
    }
    var sum := 0.0;
    for i := 0 to |xs|
      invariant sum == Sum(xs[..i])
    {
      assert xs[..i + 1][..i] == xs[..i];
      sum := sum + xs[i];
    }
    assert xs[..|xs|] == xs;
    mean := sum / |xs| as real;
    if |xs| < 2 {
      return mean, 0.0;
    }
    var variance := 0.0;
    for i := 0 to |xs|
      invariant variance == SquaredDeviations(xs[..i], mean)
    {
      assert xs[..i + 1][..i] == xs[..i];
      var delta := xs[i] - mean;
      variance := variance + delta * delta;
    }
    stdDev := root(variance / |xs| as real);
  }

  /* ----- building a profile ----- */

  function Counts(obs: seq<Observation>): (xs: seq<real>)
    ensures |xs| == |obs|
  {
    seq(|obs|, i requires 0 <= i < |obs| => obs[i].eventCount as real)
  }

  function HourCount(obs: seq<Observation>, h: nat): nat {
    if obs == [] then 0
    else HourCount(obs[..|obs| - 1], h) + (if HourOf(obs[|obs| - 1].startedAt) == h then 1 else 0)
  }

  ghost function Devices(obs: seq<Observation>): set<string> {
    set i | 0 <= i < |obs| :: obs[i].device
  }

  ghost function Applications(obs: seq<Observation>): set<string> {
    set i, j | 0 <= i < |obs| && 0 <= j < |obs[i].applications| && obs[i].applications[j] != ""
      :: obs[i].applications[j]
  }

  ghost function Networks(obs: seq<Observation>): set<string> {
    set i | 0 <= i < |obs| && obs[i].network != "" :: obs[i].network
  }

  /** The keys of a set in ascending order. */
  ghost predicate AscendingKeys(keys: seq<string>, s: set<string>) {
    && (forall i, j :: 0 <= i < j < |keys| ==> StrLess(keys[i], keys[j]))
    && (forall k :: k in keys <==> k in s)
  }

  /** The profile these observations determine. */
  ghost predicate Describes(p: Profile, obs: seq<Observation>, root: Root) {
    && p.observationCount == |obs|
    && |p.loginHours| == 24 && (forall h :: 0 <= h < 24 ==> p.loginHours[h] == HourCount(obs, h))
    && AscendingKeys(p.knownDevices, Devices(obs))
    && AscendingKeys(p.knownApplications, Applications(obs))
    && AscendingKeys(p.knownNetworks, Networks(obs))
    && p.accessRateMean == Mean(Counts(obs)) && p.accessRateStdDev == StdDev(Counts(obs), root)
    && (p.established <==> |obs| >= MINIMUM_OBSERVATIONS)
  }

  lemma StrLessIsWeakOrder()
    ensures StrictWeakOrder(StrLess)
  {
    forall a: string ensures !StrLess(a, a) {
      StrLessIrreflexive(a);
    }
    forall a: string, b: string, c: string | StrLess(a, b) && StrLess(b, c) ensures StrLess(a, c) {
      StrLessTransitive(a, b, c);
    }
    forall a: string, b: string, c: string | StrLess(a, c) ensures StrLess(a, b) || StrLess(b, c) {
      StrLessConnected(a, b);
      if StrLess(b, a) {
        StrLessTransitive(b, a, c);
      }
    }
  }

  ghost predicate Distinct(keys: seq<string>) {
    forall i, j :: 0 <= i < j < |keys| ==> keys[i] != keys[j]
  }

  lemma SortedDistinctAscends(keys: seq<string>, s: set<string>)
    requires Distinct(keys) && forall k :: k in keys <==> k in s
    ensures AscendingKeys(StableSort(keys, StrLess), s)
  {
    var sorted := StableSort(keys, StrLess);
    StrLessIsWeakOrder();
    SortSorts(keys, StrLess);
    SortPermutes(keys, StrLess);
    forall k ensures k in sorted <==> k in s {
      assert k in sorted <==> k in multiset(sorted);
      assert k in keys <==> k in multiset(keys);
    }
    forall i, j | 0 <= i < j < |sorted| ensures StrLess(sorted[i], sorted[j]) {
      if sorted[i] == sorted[j] {
        OnceEach(keys, sorted[i]);
        TwicePresent(sorted, i, j);
      }
      StrLessConnected(sorted[i], sorted[j]);
    }
  }

  lemma {:induction false} OnceEach(keys: seq<string>, k: string)
    requires Distinct(keys)
    ensures multiset(keys)[k] <= 1
  {
    if keys != [] {
      var init, last := keys[..|keys| - 1], keys[|keys| - 1];
      OnceEach(init, k);
      AppendCounts(init, last);
      SplitLast(keys);
      assert last !in multiset(init);
    }
  }

  lemma TwicePresent(s: seq<string>, i: nat, j: nat)
    requires i < j < |s| && s[i] == s[j]
    ensures multiset(s)[s[i]] >= 2
  {
    assert s == s[..j] + s[j..];
    assert s[i] in multiset(s[..j]) && s[i] in multiset(s[j..]) by {
      assert s[..j][i] == s[i] && s[j..][0] == s[j];
    }
  }

  /** `sortedKeys`: the map is walked in no particular order, then sorted. */
  method SortedKeys(s: set<string>) returns (keys: seq<string>)
    ensures AscendingKeys(keys, s)
  {
    keys := [];
    var remaining := s;
    while remaining != {}
      invariant remaining <= s && Distinct(keys)
      invariant forall k :: k in keys <==> k in s && k !in remaining
      decreases remaining
    {
      var key :| key in remaining;
      keys := keys + [key];
      remaining := remaining - {key};
    }
    SortedDistinctAscends(keys, s);
    keys := StableSort(keys, StrLess);
  }

  method CountHours(obs: seq<Observation>) returns (hours: seq<nat>)
    ensures |hours| == 24 && forall h :: 0 <= h < 24 ==> hours[h] == HourCount(obs, h)
  {
    hours := seq(24, _ => 0);
    for i := 0 to |obs|
      invariant |hours| == 24 && forall h :: 0 <= h < 24 ==> hours[h] == HourCount(obs[..i], h)
    {
      assert obs[..i + 1][..i] == obs[..i];
      var h := HourOf(obs[i].startedAt);
      hours := hours[h := hours[h] + 1];
    }
    assert obs[..|obs|] == obs;
  }

  method CollectNames(obs: seq<Observation>)
    returns (devices: set<string>, applications: set<string>, networks: set<string>)
    ensures devices == Devices(obs) && applications == Applications(obs) && networks == Networks(obs)
  {
    devices, applications, networks := {}, {}, {};
    for i := 0 to |obs|
      invariant devices == Devices(obs[..i]) && applications == Applications(obs[..i]) && networks == Networks(obs[..i])
    {
      var o := obs[i];
      NamesStep(obs, i);
      devices := devices + {o.device};
      var named := set j | 0 <= j < |o.applications| && o.applications[j] != "" :: o.applications[j];
      applications := applications + named;
      if o.network != "" {
        networks := networks + {o.network};
      }
    }
    assert obs[..|obs|] == obs;
  }

  lemma NamesStep(obs: seq<Observation>, i: nat)
    requires i < |obs|
    ensures Devices(obs[..i + 1]) == Devices(obs[..i]) + {obs[i].device}
    ensures Applications(obs[..i + 1]) == Applications(obs[..i])
              + set j | 0 <= j < |obs[i].applications| && obs[i].applications[j] != "" :: obs[i].applications[j]
    ensures Networks(obs[..i + 1]) == Networks(obs[..i]) + (if obs[i].network != "" then {obs[i].network} else {})
  {
    var a, b := obs[..i], obs[..i + 1];
    assert forall k :: 0 <= k < i ==> b[k] == a[k];
    assert b[i] == obs[i];
  }

  /** `Build`. */
  method Build(obs: seq<Observation>, root: Root) returns (p: Profile)
    ensures Describes(p, obs, root)
  {
    var hours := CountHours(obs);
    var devices, applications, networks := CollectNames(obs);
    var knownDevices := SortedKeys(devices);
    var knownApplications := SortedKeys(applications);
    var knownNetworks := SortedKeys(networks);
    var mean, stdDev := MeanAndStdDev(Counts(obs), root);
    p := Profile(|obs|, hours, knownDevices, knownApplications, knownNetworks, mean, stdDev,
                 |obs| >= MINIMUM_OBSERVATIONS);
  }

  /* ----- the profile does not depend on the order of the observations ----- */

  /** Sum of a quantity over the observations. */
  ghost function Tally(obs: seq<Observation>, f: Observation -> real): real {
    if obs == [] then 0.0 else Tally(obs[..|obs| - 1], f) + f(obs[|obs| - 1])
  }

  lemma {:induction false} TallyRemove(obs: seq<Observation>, j: nat, f: Observation -> real)
    requires j < |obs|
    ensures Tally(obs, f) == Tally(obs[..j] + obs[j + 1..], f) + f(obs[j])
  {
    var n := |obs| - 1;
    if j < n {
      var init := obs[..n];
      TallyRemove(init, j, f);
      var without := obs[..j] + obs[j + 1..];
      assert without[..|without| - 1] == init[..j] + init[j + 1..];
      assert without[|without| - 1] == obs[n];
    } else {
      assert obs[..j] + obs[j + 1..] == obs[..n];
    }
  }

  lemma {:induction false} TallyIgnoresOrder(a: seq<Observation>, b: seq<Observation>, f: Observation -> real)
    requires multiset(a) == multiset(b)
    ensures Tally(a, f) == Tally(b, f) && |a| == |b|
    decreases |a|
  {
    SameSize(a, b);
    if a != [] {
      var x := a[|a| - 1];
      assert x in multiset(b);
      var j :| 0 <= j < |b| && b[j] == x;
      RemoveCounts(b, j);
      DropLast(a);
      TallyRemove(b, j, f);
      TallyIgnoresOrder(a[..|a| - 1], b[..j] + b[j + 1..], f);
    }
  }

  lemma SameSize(a: seq<Observation>, b: seq<Observation>)
    requires multiset(a) == multiset(b)
    ensures |a| == |b|
  {
    assert |a| == |multiset(a)| && |b| == |multiset(b)|;
  }

  lemma RemoveCounts(b: seq<Observation>, j: nat)
    requires j < |b|
    ensures multiset(b[..j] + b[j + 1..]) == multiset(b) - multiset{b[j]}
  {
    assert b == b[..j] + ([b[j]] + b[j + 1..]);
  }

  lemma {:induction false} HourCountIsTally(obs: seq<Observation>, h: nat)
    ensures HourCount(obs, h) as real == Tally(obs, (o: Observation) => if HourOf(o.startedAt) == h then 1.0 else 0.0)
  {
    if obs != [] {
      HourCountIsTally(obs[..|obs| - 1], h);
    }
  }

  lemma {:induction false} SumIsTally(obs: seq<Observation>)
    ensures Sum(Counts(obs)) == Tally(obs, (o: Observation) => o.eventCount as real)
  {
    if obs != [] {
      SumIsTally(obs[..|obs| - 1]);
      assert Counts(obs)[..|obs| - 1] == Counts(obs[..|obs| - 1]);
    }
  }

  function SquaredDeviation(m: real): Observation -> real {
    (o: Observation) => (o.eventCount as real - m) * (o.eventCount as real - m)
  }

  lemma {:induction false} SquaredDeviationsIsTally(obs: seq<Observation>, m: real)
    ensures SquaredDeviations(Counts(obs), m) == Tally(obs, SquaredDeviation(m))
  {
    if obs != [] {
      SquaredDeviationsIsTally(obs[..|obs| - 1], m);
      assert Counts(obs)[..|obs| - 1] == Counts(obs[..|obs| - 1]);
    }
  }

  lemma SameMembers(a: seq<Observation>, b: seq<Observation>)
    requires multiset(a) == multiset(b)
    ensures Devices(a) == Devices(b) && Applications(a) == Applications(b) && Networks(a) == Networks(b)
  {
    SubMembers(a, b);
    SubMembers(b, a);
  }

  lemma SubMembers(a: seq<Observation>, b: seq<Observation>)
    requires multiset(a) == multiset(b)
    ensures Devices(a) <= Devices(b) && Applications(a) <= Applications(b) && Networks(a) <= Networks(b)
  {
    forall i | 0 <= i < |a| ensures exists k :: 0 <= k < |b| && b[k] == a[i] {
      assert a[i] in multiset(b);
    }
  }

  lemma StatisticsIgnoreOrder(a: seq<Observation>, b: seq<Observation>, root: Root)
    requires multiset(a) == multiset(b)
    ensures Mean(Counts(a)) == Mean(Counts(b)) && StdDev(Counts(a), root) == StdDev(Counts(b), root)
  {
    SameSize(a, b);
    SumIsTally(a);
    SumIsTally(b);
    TallyIgnoresOrder(a, b, (o: Observation) => o.eventCount as real);
    var m := Mean(Counts(a));
    SquaredDeviationsIsTally(a, m);
    SquaredDeviationsIsTally(b, m);
    TallyIgnoresOrder(a, b, SquaredDeviation(m));
  }

  lemma {:induction false} AscendingKeysUnique(a: seq<string>, b: seq<string>, s: set<string>)
    requires AscendingKeys(a, s) && AscendingKeys(b, s)
    ensures a == b
    decreases |a|
  {
    KeysEmpty(a, s);
    KeysEmpty(b, s);
    if s != {} {
      var x, y := a[|a| - 1], b[|b| - 1];
      LastIsLargest(a, s, y);
      LastIsLargest(b, s, x);
      if StrLess(x, y) && StrLess(y, x) {
        StrLessTransitive(x, y, x);
        StrLessIrreflexive(x);
      }
      assert x == y;
      KeysInit(a, s);
      KeysInit(b, s);
      AscendingKeysUnique(a[..|a| - 1], b[..|b| - 1], s - {x});
      SplitLast(a);
      SplitLast(b);
    }
  }

  lemma KeysEmpty(a: seq<string>, s: set<string>)
    requires AscendingKeys(a, s)
    ensures a == [] <==> s == {}
  {
    assert a != [] ==> a[0] in s;
    if s != {} {
      var k :| k in s;
      assert k in a;
    }
  }

  lemma LastIsLargest(a: seq<string>, s: set<string>, k: string)
    requires a != [] && AscendingKeys(a, s) && k in s
    ensures k == a[|a| - 1] || StrLess(k, a[|a| - 1])
  {
    var i :| 0 <= i < |a| && a[i] == k;
  }

  lemma KeysInit(a: seq<string>, s: set<string>)
    requires a != [] && AscendingKeys(a, s)
    ensures AscendingKeys(a[..|a| - 1], s - {a[|a| - 1]})
  {
    var init, last := a[..|a| - 1], a[|a| - 1];
    forall k ensures k in init <==> k in s - {last} {
      InitMember(a, k);
    }
  }

  lemma InitMember(a: seq<string>, k: string)
    requires a != [] && forall i, j :: 0 <= i < j < |a| ==> StrLess(a[i], a[j])
    ensures k in a[..|a| - 1] <==> k in a && k != a[|a| - 1]
  {
    var init, last := a[..|a| - 1], a[|a| - 1];
    StrLessIrreflexive(last);
    if k in a && k != last {
      var i :| 0 <= i < |a| && a[i] == k;
      assert init[i] == k;
    }
    if k in init {
      var i :| 0 <= i < |init| && init[i] == k;
      assert a[i] == k && StrLess(a[i], last);
    }
  }

  /** Main theorem: every reordering of the observations yields the same profile. */
  lemma ProfileIgnoresOrder(a: seq<Observation>, b: seq<Observation>, p: Profile, q: Profile, root: Root)
    requires multiset(a) == multiset(b) && Describes(p, a, root) && Describes(q, b, root)
    ensures p == q
  {
    SameSize(a, b);
    SameMembers(a, b);
    StatisticsIgnoreOrder(a, b, root);
    AscendingKeysUnique(p.knownDevices, q.knownDevices, Devices(a));
    AscendingKeysUnique(p.knownApplications, q.knownApplications, Applications(a));
    AscendingKeysUnique(p.knownNetworks, q.knownNetworks, Networks(a));
    forall h | 0 <= h < 24 ensures p.loginHours[h] == q.loginHours[h] {
      HourCountIsTally(a, h);
      HourCountIsTally(b, h);
      TallyIgnoresOrder(a, b, (o: Observation) => if HourOf(o.startedAt) == h then 1.0 else 0.0);
    }
    assert p.loginHours == q.loginHours;
  }

  /* ----- judging a session ----- */

  function AccessVolumeZScore(p: Profile, eventCount: int): real {
    if !p.established || p.accessRateStdDev <= 0.0 then 0.0
    else
      var z := (eventCount as real - p.accessRateMean) / p.accessRateStdDev;
      if z < 0.0 then 0.0 else z
  }

  /** The z-score is the distance above the mean in standard deviations, and 0 at or below the mean,
      without a baseline, or when all sessions were alike. */
  lemma ZScoreMeaning(p: Profile, eventCount: int)
    ensures var z := AccessVolumeZScore(p, eventCount);
            && z >= 0.0
            && (p.established && p.accessRateStdDev > 0.0 && eventCount as real >= p.accessRateMean ==>
                  z * p.accessRateStdDev == eventCount as real - p.accessRateMean)
            && (!p.established || p.accessRateStdDev <= 0.0 || eventCount as real < p.accessRateMean ==> z == 0.0)
  {
    if p.established && p.accessRateStdDev > 0.0 {
      var d := eventCount as real - p.accessRateMean;
      DivTimes(d, p.accessRateStdDev);
      QuotientSign(d, p.accessRateStdDev, d / p.accessRateStdDev);
    }
  }

  lemma QuotientSign(d: real, sigma: real, z: real)
    requires sigma > 0.0 && z * sigma == d
    ensures z < 0.0 <==> d < 0.0
  {
  }

  /** The hour of a session is the one the agent's own calendar would print. */
  lemma HourIsClockHour(startedAt: nat)
    ensures HourOf(startedAt) == C.MomentOf(startedAt).hour
  {
    var q := startedAt / 86_400;
    var r := startedAt % 86_400;
    C.DivIs(startedAt, 3600, 24 * q + r / 3600, r % 3600);
    C.DivIs(24 * q + r / 3600, 24, q, r / 3600);
  }

  /** The hour before (0), the hour itself (1), the hour after (2), around midnight. */
  function Neighbour(hour: nat, k: nat): (h: nat)
    requires hour < 24 && k < 3
    ensures h < 24
    ensures k == 0 ==> hour == (h + 1) % 24
    ensures k == 1 ==> h == hour
    ensures k == 2 ==> h == (hour + 1) % 24
  {
    (hour + k + 23) % 24
  }

  /** An hour is typical if the user signed in during it or a neighbouring one. */
  method IsTypicalHour(p: Profile, startedAt: int) returns (typical: bool)
    requires |p.loginHours| == 24
    ensures typical <==>
              || !p.established
              || exists k: nat :: k < 3 && p.loginHours[Neighbour(HourOf(startedAt), k)] > 0
  {
    if !p.established {
      return true;
    }
    var hour := HourOf(startedAt);
    for k := 0 to 3
      invariant forall j: nat :: j < k ==> p.loginHours[Neighbour(hour, j)] == 0
    {
      if p.loginHours[Neighbour(hour, k)] > 0 {
        return true;
      }
    }
    return false;
  }

  /* ----- how many sessions a baseline can flag in its own history ----- */

  function Flagged(xs: seq<real>, threshold: real): nat {
    if xs == [] then 0 else Flagged(xs[..|xs| - 1], threshold) + (if xs[|xs| - 1] >= threshold then 1 else 0)
  }

  /** Sum of squares of the deviations, each shifted by `u`. */
  ghost function Shifted(xs: seq<real>, m: real, u: real): real {
    if xs == [] then 0.0
    else Shifted(xs[..|xs| - 1], m, u) + (xs[|xs| - 1] - m + u) * (xs[|xs| - 1] - m + u)
  }

  /** Sum of the deviations themselves. */
  ghost function Deviations(xs: seq<real>, m: real): real {
    if xs == [] then 0.0 else Deviations(xs[..|xs| - 1], m) + (xs[|xs| - 1] - m)
  }

  /** Sum of the mixed products, one per value. */
  ghost function Mixed(xs: seq<real>, m: real, u: real): real {
    if xs == [] then 0.0 else Mixed(xs[..|xs| - 1], m, u) + u * (xs[|xs| - 1] - m)
  }

  ghost function Repeated(n: nat, x: real): real {
    if n == 0 then 0.0 else Repeated(n - 1, x) + x
  }

  lemma {:induction false} ShiftedExpands(xs: seq<real>, m: real, u: real, uu: real)
    requires uu == u * u
    ensures Shifted(xs, m, u) == SquaredDeviations(xs, m) + 2.0 * Mixed(xs, m, u) + Repeated(|xs|, uu)
  {
    if xs != [] {
      ShiftedExpands(xs[..|xs| - 1], m, u, uu);
    }
  }

  lemma Distribute(u: real, a: real, d: real, sum: real)
    requires sum == a + d
    ensures u * sum == u * a + u * d
  {
  }

  lemma OneMore(n: real, x: real, more: real)
    requires more == n + 1.0
    ensures more * x == n * x + x
  {
  }

  lemma {:induction false} MixedFactors(xs: seq<real>, m: real, u: real)
    ensures Mixed(xs, m, u) == u * Deviations(xs, m)
  {
    if xs != [] {
      var init, d := xs[..|xs| - 1], xs[|xs| - 1] - m;
      MixedFactors(init, m, u);
      Distribute(u, Deviations(init, m), d, Deviations(xs, m));
    }
  }

  lemma {:induction false} DeviationsBalance(xs: seq<real>, m: real)
    ensures Deviations(xs, m) == Sum(xs) - |xs| as real * m
  {
    if xs != [] {
      DeviationsBalance(xs[..|xs| - 1], m);
      OneMore((|xs| - 1) as real, m, |xs| as real);
    }
  }

  lemma {:induction false} RepeatedIsProduct(n: nat, x: real)
    ensures Repeated(n, x) == n as real * x
  {
    if n > 0 {
      RepeatedIsProduct(n - 1, x);
      OneMore((n - 1) as real, x, n as real);
    }
  }

  lemma SquareAtLeast(d: real, b: real)
    requires d >= b >= 0.0
    ensures d * d >= b * b
  {
    assert (d - b) * b >= 0.0 && (d - b) * d >= 0.0;
  }

  lemma WeighStep(sum: real, k: real, uu: real, term: real, hit: bool)
    requires sum >= 100.0 * (k * uu) && term >= (if hit then 100.0 * uu else 0.0)
    ensures sum + term >= 100.0 * ((if hit then k + 1.0 else k) * uu)
  {
    assert (k + 1.0) * uu == k * uu + uu;
  }

  lemma SquareOfTen(d: real, u: real)
    requires d >= 10.0 * u >= 0.0
    ensures d * d >= 100.0 * (u * u)
  {
    SquareAtLeast(d, 10.0 * u);
    assert 10.0 * u * (10.0 * u) == 100.0 * (u * u);
  }

  /** Every flagged value puts at least 100 u^2 on the shifted sum. */
  lemma {:induction false} FlaggedWeigh(xs: seq<real>, m: real, u: real, uu: real, t: real)
    requires u >= 0.0 && uu == u * u && t == m + 9.0 * u
    ensures Shifted(xs, m, u) >= 100.0 * (Flagged(xs, t) as real * uu)
  {
    if xs != [] {
      var init, x := xs[..|xs| - 1], xs[|xs| - 1];
      FlaggedWeigh(init, m, u, uu, t);
      var d := x - m + u;
      SquareNonNegative(d);
      if x >= t {
        SquareOfTen(d, u);
      }
      WeighStep(Shifted(init, m, u), Flagged(init, t) as real, uu, d * d, x >= t);
    }
  }

  lemma SquareNonNegative(d: real)
    ensures d * d >= 0.0
  {
  }

  lemma TimesZero(u: real, b: real)
    requires b == 0.0
    ensures u * b == 0.0
  {
  }

  lemma DivTimes(a: real, n: real)
    requires n > 0.0
    ensures a / n * n == a
  {
  }

  lemma SumBalances(xs: seq<real>)
    requires xs != []
    ensures Sum(xs) - |xs| as real * Mean(xs) == 0.0
  {
    DivTimes(Sum(xs), |xs| as real);
  }

  lemma DeviationsAreVariance(xs: seq<real>)
    requires xs != []
    ensures SquaredDeviations(xs, Mean(xs)) == |xs| as real * Variance(xs)
  {
    DivTimes(SquaredDeviations(xs, Mean(xs)), |xs| as real);
  }

  lemma DeviationsVanish(xs: seq<real>)
    requires xs != []
    ensures Deviations(xs, Mean(xs)) == 0.0
  {
    DeviationsBalance(xs, Mean(xs));
    SumBalances(xs);
  }

  /** Around the mean the mixed products cancel. */
  lemma MixedVanishes(xs: seq<real>, m: real, u: real)
    requires Deviations(xs, m) == 0.0
    ensures Mixed(xs, m, u) == 0.0
  {
    MixedFactors(xs, m, u);
    TimesZero(u, Deviations(xs, m));
  }

  lemma ShiftedAround(xs: seq<real>, m: real, u: real, uu: real, shifts: real)
    requires Deviations(xs, m) == 0.0 && uu == u * u && shifts == Repeated(|xs|, uu)
    ensures Shifted(xs, m, u) == SquaredDeviations(xs, m) + shifts
  {
    MixedVanishes(xs, m, u);
    ShiftedExpands(xs, m, u, uu);
  }

  lemma CancelPositive(count: real, n: real, uu: real)
    requires uu > 0.0 && 10.0 * (count * uu) <= n * uu
    ensures 10.0 * count <= n
  {
    var gap := n - 10.0 * count;
    assert gap * uu == n * uu - 10.0 * (count * uu);
    SignOfFactor(gap, uu);
  }

  lemma SignOfFactor(gap: real, uu: real)
    requires uu > 0.0 && gap * uu >= 0.0
    ensures gap >= 0.0
  {
  }

  /** Nine parts from the deviations and one from the shift make ten. */
  lemma TenParts(n: real, uu: real, variance: real, deviations: real, shifted: real, count: real)
    requires uu > 0.0 && variance == 9.0 * uu && deviations == n * variance
    requires shifted == deviations + n * uu && shifted >= 100.0 * (count * uu)
    ensures 10.0 * count <= n
  {
    assert n * variance == 9.0 * (n * uu);
    CancelPositive(count, n, uu);
  }

  /** The one-sided Chebyshev bound (Cantelli) for three standard deviations, with u a third of the
      standard deviation. */
  lemma AtMostOneTenthBeyondThreeSigma(xs: seq<real>, u: real, uu: real)
    requires xs != [] && u > 0.0 && uu == u * u && uu > 0.0 && Variance(xs) == 9.0 * uu
    ensures 10 * Flagged(xs, Mean(xs) + 9.0 * u) <= |xs|
  {
    DeviationsVanish(xs);
    DeviationsAreVariance(xs);
    TenthBeyond(xs, Mean(xs), u, uu, Mean(xs) + 9.0 * u, Variance(xs));
  }

  /** The same around any point at which the deviations cancel. */
  lemma TenthBeyond(xs: seq<real>, m: real, u: real, uu: real, t: real, variance: real)
    requires xs != [] && u > 0.0 && uu == u * u && uu > 0.0 && t == m + 9.0 * u && variance == 9.0 * uu
    requires Deviations(xs, m) == 0.0 && SquaredDeviations(xs, m) == |xs| as real * variance
    ensures 10 * Flagged(xs, t) <= |xs|
  {
    var shifts := Repeated(|xs|, uu);
    RepeatedIsProduct(|xs|, uu);
    WeightBound(xs, m, u, uu, t, shifts);
    TenParts(|xs| as real, uu, variance, SquaredDeviations(xs, m), SquaredDeviations(xs, m) + shifts,
             Flagged(xs, t) as real);
  }

  lemma WeightBound(xs: seq<real>, m: real, u: real, uu: real, t: real, shifts: real)
    requires u >= 0.0 && uu == u * u && t == m + 9.0 * u && shifts == Repeated(|xs|, uu) && Deviations(xs, m) == 0.0
    ensures SquaredDeviations(xs, m) + shifts >= 100.0 * (Flagged(xs, t) as real * uu)
  {
    ShiftedAround(xs, m, u, uu, shifts);
    FlaggedWeigh(xs, m, u, uu, t);
  }

  function FlaggedSessions(obs: seq<Observation>, p: Profile): nat {
    if obs == [] then 0
    else
      FlaggedSessions(obs[..|obs| - 1], p)
      + (if AccessVolumeZScore(p, obs[|obs| - 1].eventCount) >= 3.0 then 1 else 0)
  }

  lemma ZScoreThreshold(x: real, m: real, sigma: real)
    requires sigma > 0.0
    ensures (x - m) / sigma >= 3.0 <==> x >= m + 3.0 * sigma
  {
    DivTimes(x - m, sigma);
    var z := (x - m) / sigma;
    assert z * sigma == x - m;
    if z >= 3.0 {
      assert (z - 3.0) * sigma >= 0.0;
    } else {
      assert (3.0 - z) * sigma > 0.0;
    }
  }

  lemma {:induction false} FlaggedSessionsCount(obs: seq<Observation>, p: Profile)
    requires p.established && p.accessRateStdDev > 0.0
    ensures FlaggedSessions(obs, p) == Flagged(Counts(obs), p.accessRateMean + 3.0 * p.accessRateStdDev)
  {
    if obs != [] {
      FlaggedSessionsCount(obs[..|obs| - 1], p);
      assert Counts(obs)[..|obs| - 1] == Counts(obs[..|obs| - 1]);
      ZScoreThreshold(obs[|obs| - 1].eventCount as real, p.accessRateMean, p.accessRateStdDev);
    }
  }

  lemma {:induction false} NothingFlagged(obs: seq<Observation>, p: Profile)
    requires !p.established || p.accessRateStdDev <= 0.0
    ensures FlaggedSessions(obs, p) == 0
  {
    if obs != [] {
      NothingFlagged(obs[..|obs| - 1], p);
    }
  }

  lemma ThirdOf(sigma: real, u: real, uu: real, variance: real)
    requires sigma > 0.0 && sigma == 3.0 * u && sigma * sigma == variance && uu == u * u
    ensures variance == 9.0 * uu
  {
    assert sigma * sigma == 3.0 * (u * sigma) && u * sigma == 3.0 * (u * u);
  }

  lemma ProductPositive(a: real, b: real, ab: real)
    requires a > 0.0 && b > 0.0 && ab == a * b
    ensures ab > 0.0
  {
  }

  lemma VarianceNonNegative(xs: seq<real>)
    ensures Variance(xs) >= 0.0
  {
    if xs != [] {
      DeviationsNonNegative(xs, Mean(xs));
    }
  }

  lemma {:induction false} DeviationsNonNegative(xs: seq<real>, m: real)
    ensures SquaredDeviations(xs, m) >= 0.0
  {
    if xs != [] {
      DeviationsNonNegative(xs[..|xs| - 1], m);
      var d := xs[|xs| - 1] - m;
      assert d * d >= 0.0;
    }
  }

  /** Main theorem: of the sessions a baseline was built from, at most one tenth can be abnormal
      (z >= 3) against that same baseline. */
  lemma FewSessionsAbnormalInOwnBaseline(obs: seq<Observation>, p: Profile, root: Root)
    requires IsSquareRoot(root) && Describes(p, obs, root)
    ensures 10 * FlaggedSessions(obs, p) <= |obs|
  {
    if !p.established || p.accessRateStdDev <= 0.0 {
      NothingFlagged(obs, p);
    } else {
      var xs := Counts(obs);
      VarianceNonNegative(xs);
      assert p.accessRateStdDev * p.accessRateStdDev == Variance(xs);
      FlaggedSessionsCount(obs, p);
      var u := p.accessRateStdDev / 3.0;
      ThirdOf(p.accessRateStdDev, u, u * u, Variance(xs));
      ProductPositive(u, u, u * u);
      AtMostOneTenthBeyondThreeSigma(xs, u, u * u);
    }
  }
}
