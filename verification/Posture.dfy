/** Device posture scoring (backend/internal/posture/score.go, backend/internal/posture/signals.go). */
module Posture {
  import opened Common
  import opened Ordering

  datatype Signals = Signals(
    diskEncryption: Option<bool>, secureBoot: Option<bool>, firewall: Option<bool>,
    screenLock: Option<bool>, antiMalware: Option<bool>, osName: string, osVersion: string)

  /** Times are nanoseconds. */
  datatype DeviceContext = DeviceContext(
    active: bool, keyProtection: string, agentVersion: string, expectedAgent: string,
    lastHeartbeatAt: Option<int>, now: int)

  datatype Weights = Weights(
    deviceIdentity: int, agentHealth: int, diskEncryption: int, secureBoot: int,
    osSupported: int, firewall: int, screenLock: int, antiMalware: int)

  datatype Control =
    | DeviceIdentity | AgentHealth | DiskEncryption | SecureBoot | OsSupported | Firewall | ScreenLock | AntiMalware

  datatype Factor = Factor(code: Control, contribution: int, maximum: int, verified: bool)

  datatype Assessment = Assessment(score: int, factors: seq<Factor>, verified: bool)

  const AGENT_STALE_AFTER := 900_000_000_000

  predicate ValidWeights(w: Weights) {
    && w.deviceIdentity >= 0 && w.agentHealth >= 0 && w.diskEncryption >= 0 && w.secureBoot >= 0
    && w.osSupported >= 0 && w.firewall >= 0 && w.screenLock >= 0 && w.antiMalware >= 0
    && w.deviceIdentity + w.agentHealth + w.diskEncryption + w.secureBoot
       + w.osSupported + w.firewall + w.screenLock + w.antiMalware == 100
  }

  /* ----- version comparison ----- */

  /** Parts still to come after `v`; `digits` says the current part has a digit, `first` that no part
      was emitted yet. Characters other than digits and dots are skipped. */
  function Parts(v: string, current: nat, digits: bool, first: bool): seq<nat>
    decreases |v|
  {
    if v == [] then (if digits || first then [current] else [])
    else if '0' <= v[0] <= '9' then Parts(v[1..], current * 10 + (v[0] - '0') as nat, true, first)
    else if v[0] == '.' then [current] + Parts(v[1..], 0, false, false)
    else Parts(v[1..], current, digits, first)
  }

  function Split(v: string): seq<nat> {
    Parts(v, 0, false, true)
  }

  method SplitVersion(v: string) returns (parts: seq<nat>)
    ensures parts == Split(v)
  {
    parts := [];
    var current: nat, digits := 0, false;
    for i := 0 to |v|
      invariant Split(v) == parts + Parts(v[i..], current, digits, parts == [])
    {
      assert v[i..][1..] == v[i + 1..];
      if '0' <= v[i] <= '9' {
        current := current * 10 + (v[i] - '0') as nat;
        digits := true;
      } else if v[i] == '.' {
        assert parts + ([current] + Parts(v[i + 1..], 0, false, false))
               == (parts + [current]) + Parts(v[i + 1..], 0, false, false);
        parts := parts + [current];
        current, digits := 0, false;
      }
    }
    if digits || |parts| == 0 {
      parts := parts + [current];
    }
  }

  /* What the parts of a version are: the digit values of its dot-separated segments. */

  function Segments(v: string): (segments: seq<string>)
    ensures |segments| >= 1
  {
    if v == [] then [""]
    else
      var rest := Segments(v[1..]);
      if v[0] == '.' then [""] + rest else [[v[0]] + rest[0]] + rest[1..]
  }

  predicate IsDigit(c: char) {
    '0' <= c <= '9'
  }

  /** The number the digits of a segment spell, other characters left out, read after `high`. */
  function DigitsValue(segment: string, high: nat): nat {
    if segment == [] then high
    else DigitsValue(segment[1..], if IsDigit(segment[0]) then high * 10 + (segment[0] - '0') as nat else high)
  }

  predicate HasDigit(segment: string) {
    exists i :: 0 <= i < |segment| && IsDigit(segment[i])
  }

  /** A last segment without digits yields no part, unless it is the only one. */
  function Counted(segments: seq<string>): nat
    requires segments != []
  {
    if |segments| > 1 && !HasDigit(segments[|segments| - 1]) then |segments| - 1 else |segments|
  }

  lemma HasDigitFront(c: char, rest: string)
    ensures HasDigit([c] + rest) <==> IsDigit(c) || HasDigit(rest)
  {
    var s := [c] + rest;
    if i :| 0 <= i < |rest| && IsDigit(rest[i]) {
      assert s[i + 1] == rest[i];
    }
    if i :| 0 <= i < |s| && IsDigit(s[i]) {
      assert i > 0 ==> rest[i - 1] == s[i];
    }
    assert s[0] == c;
  }

  /** The segments still to come, the first of which continues a part already begun. */
  ghost predicate PartsAre(parts: seq<nat>, segments: seq<string>, current: nat, digits: bool, first: bool)
    requires segments != []
  {
    var keep := |segments| > 1 || HasDigit(segments[0]) || digits || first;
    && |parts| == (if |segments| == 1 then (if keep then 1 else 0) else Counted(segments))
    && (forall i :: 0 <= i < |parts| ==> parts[i] == DigitsValue(segments[i], if i == 0 then current else 0))
  }

  lemma PartsAfterDot(parts: seq<nat>, rest: seq<string>, current: nat, digits: bool, first: bool)
    requires rest != [] && PartsAre(parts, rest, 0, false, false)
    ensures PartsAre([current] + parts, [""] + rest, current, digits, first)
  {
    var segments := [""] + rest;
    assert segments[|segments| - 1] == rest[|rest| - 1];
    forall i | 0 <= i < |[current] + parts|
      ensures ([current] + parts)[i] == DigitsValue(segments[i], if i == 0 then current else 0)
    {
      assert i > 0 ==> segments[i] == rest[i - 1];
    }
  }

  lemma PartsAfterOther(parts: seq<nat>, rest: seq<string>, c: char, current: nat, digits: bool, first: bool)
    requires rest != []
    requires PartsAre(parts, rest, if IsDigit(c) then current * 10 + (c - '0') as nat else current,
                      digits || IsDigit(c), first)
    ensures PartsAre(parts, [[c] + rest[0]] + rest[1..], current, digits, first)
  {
    var segments := [[c] + rest[0]] + rest[1..];
    HasDigitFront(c, rest[0]);
    assert |segments| == |rest| && forall i :: 0 < i < |rest| ==> segments[i] == rest[i];
    assert segments[0][0] == c && segments[0][1..] == rest[0];
  }

  lemma {:induction false} PartsMeaning(v: string, current: nat, digits: bool, first: bool)
    ensures PartsAre(Parts(v, current, digits, first), Segments(v), current, digits, first)
    decreases |v|
  {
    if v != [] {
      if v[0] == '.' {
        PartsMeaning(v[1..], 0, false, false);
        PartsAfterDot(Parts(v[1..], 0, false, false), Segments(v[1..]), current, digits, first);
      } else if IsDigit(v[0]) {
        PartsMeaning(v[1..], current * 10 + (v[0] - '0') as nat, true, first);
        PartsAfterOther(Parts(v, current, digits, first), Segments(v[1..]), v[0], current, digits, first);
      } else {
        PartsMeaning(v[1..], current, digits, first);
        PartsAfterOther(Parts(v, current, digits, first), Segments(v[1..]), v[0], current, digits, first);
      }
    }
  }

  /** The parts of a version are the digit values of its dot-separated segments, in order; only a last
      segment without digits, after a dot, is dropped. */
  lemma SplitMeaning(v: string)
    ensures |Split(v)| == Counted(Segments(v))
    ensures forall i :: 0 <= i < |Split(v)| ==> Split(v)[i] == DigitsValue(Segments(v)[i], 0)
  {
    PartsMeaning(v, 0, false, true);
  }

  /** The segments are the text between the dots: joined again they give the version, and none of
      them holds a dot. */
  function JoinDots(segments: seq<string>): string
    requires segments != []
  {
    if |segments| == 1 then segments[0] else segments[0] + ['.'] + JoinDots(segments[1..])
  }

  lemma {:induction false} SegmentsMeaning(v: string)
    ensures JoinDots(Segments(v)) == v
    ensures forall i :: 0 <= i < |Segments(v)| ==> '.' !in Segments(v)[i]
  {
    if v != [] {
      var rest, segments := Segments(v[1..]), Segments(v);
      SegmentsMeaning(v[1..]);
      assert v == [v[0]] + v[1..];
      if v[0] == '.' {
        assert segments[1..] == rest;
      } else {
        assert segments[1..] == rest[1..];
        if |rest| > 1 {
          assert segments[0] + ['.'] + JoinDots(rest[1..]) == [v[0]] + (rest[0] + ['.'] + JoinDots(rest[1..]));
        }
      }
    }
  }

  /** Missing parts read as zero. */
  function At(parts: seq<nat>, i: nat): nat {
    if i < |parts| then parts[i] else 0
  }

  function Longer(a: seq<nat>, b: seq<nat>): nat {
    if |a| < |b| then |b| else |a|
  }

  function CompareFrom(a: seq<nat>, b: seq<nat>, i: nat): int
    decreases Longer(a, b) - i
  {
    if i >= Longer(a, b) then 0
    else if At(a, i) < At(b, i) then -1
    else if At(a, i) > At(b, i) then 1
    else CompareFrom(a, b, i + 1)
  }

  function Compare(a: string, b: string): int {
    CompareFrom(Split(a), Split(b), 0)
  }

  method CompareVersions(a: string, b: string) returns (c: int)
    ensures c == Compare(a, b)
  {
    var left := SplitVersion(a);
    var right := SplitVersion(b);
    var i := 0;
    while i < |left| || i < |right|
      invariant 0 <= i <= Longer(left, right)
      invariant Compare(a, b) == CompareFrom(left, right, i)
      decreases Longer(left, right) - i
    {
      var x, y := 0, 0;
      if i < |left| {
        x := left[i];
      }
      if i < |right| {
        y := right[i];
      }
      if x != y {
        if x < y {
          return -1;
        }
        return 1;
      }
      i := i + 1;
    }
    return 0;
  }

  /** `k` is the first place where the two differ. */
  ghost predicate FirstDifference(a: seq<nat>, b: seq<nat>, k: nat) {
    At(a, k) != At(b, k) && forall i: nat :: i < k ==> At(a, i) == At(b, i)
  }

  lemma {:induction false} CompareMeaning(a: seq<nat>, b: seq<nat>, i: nat)
    requires forall j: nat :: j < i ==> At(a, j) == At(b, j)
    ensures CompareFrom(a, b, i) == 0 <==> forall j: nat :: At(a, j) == At(b, j)
    ensures CompareFrom(a, b, i) < 0 <==> exists k: nat :: FirstDifference(a, b, k) && At(a, k) < At(b, k)
    ensures -1 <= CompareFrom(a, b, i) <= 1
    decreases Longer(a, b) - i
  {
    if i < Longer(a, b) {
      if At(a, i) == At(b, i) {
        CompareMeaning(a, b, i + 1);
      } else {
        assert FirstDifference(a, b, i);
      }
    }
  }

  lemma {:induction false} CompareAntisymmetric(a: seq<nat>, b: seq<nat>, i: nat)
    ensures CompareFrom(a, b, i) == -CompareFrom(b, a, i)
    decreases Longer(a, b) - i
  {
    if i < Longer(a, b) {
      CompareAntisymmetric(a, b, i + 1);
    }
  }

  lemma CompareTransitive(a: seq<nat>, b: seq<nat>, c: seq<nat>)
    requires CompareFrom(a, b, 0) <= 0 && CompareFrom(b, c, 0) <= 0
    ensures CompareFrom(a, c, 0) <= 0
  {
    CompareMeaning(a, b, 0);
    CompareMeaning(b, c, 0);
    CompareMeaning(a, c, 0);
    if CompareFrom(a, b, 0) < 0 {
      var k: nat :| FirstDifference(a, b, k) && At(a, k) < At(b, k);
      if CompareFrom(b, c, 0) < 0 {
        var m: nat :| FirstDifference(b, c, m) && At(b, m) < At(c, m);
        assert FirstDifference(a, c, if k < m then k else m);
      } else {
        assert FirstDifference(a, c, k);
      }
    } else if CompareFrom(b, c, 0) < 0 {
      var m: nat :| FirstDifference(b, c, m) && At(b, m) < At(c, m);
      assert FirstDifference(a, c, m);
    }
  }

  /** Version comparison is a total preorder: reflexive, antisymmetric in sign (hence total) and
      transitive. */
  lemma CompareIsTotalPreorder(a: string, b: string, c: string)
    ensures Compare(a, a) == 0
    ensures Compare(a, b) == -Compare(b, a)
    ensures Compare(a, b) <= 0 && Compare(b, c) <= 0 ==> Compare(a, c) <= 0
  {
    CompareMeaning(Split(a), Split(a), 0);
    CompareAntisymmetric(Split(a), Split(b), 0);
    if Compare(a, b) <= 0 && Compare(b, c) <= 0 {
      CompareTransitive(Split(a), Split(b), Split(c));
    }
  }

  /** No digit but zero. */
  predicate NoNonzeroDigit(s: string) {
    forall i :: 0 <= i < |s| ==> !('1' <= s[i] <= '9')
  }

  lemma {:induction false} ZeroParts(z: string, digits: bool, first: bool, i: nat)
    requires NoNonzeroDigit(z)
    ensures At(Parts(z, 0, digits, first), i) == 0
    decreases |z|
  {
    if z != [] {
      assert NoNonzeroDigit(z[1..]);
      if z[0] == '.' {
        if i > 0 {
          ZeroParts(z[1..], false, false, i - 1);
        }
      } else {
        ZeroParts(z[1..], digits || z[0] == '0', first, i);
      }
    }
  }

  lemma {:induction false} TrailingZeroParts(v: string, z: string, current: nat, digits: bool, first: bool, i: nat)
    requires !digits ==> current == 0
    requires NoNonzeroDigit(z)
    ensures At(Parts(v + ['.'] + z, current, digits, first), i) == At(Parts(v, current, digits, first), i)
    decreases |v|
  {
    var all := v + ['.'] + z;
    if v == [] {
      assert all[0] == '.' && all[1..] == z;
      if i > 0 {
        ZeroParts(z, false, false, i - 1);
      }
    } else {
      assert all[1..] == v[1..] + ['.'] + z && all[0] == v[0];
      if '0' <= v[0] <= '9' {
        TrailingZeroParts(v[1..], z, current * 10 + (v[0] - '0') as nat, true, first, i);
      } else if v[0] == '.' {
        if i > 0 {
          TrailingZeroParts(v[1..], z, 0, false, false, i - 1);
        }
      } else {
        TrailingZeroParts(v[1..], z, current, digits, first, i);
      }
    }
  }

  /** Anything appended after a dot is ignored, on either side, as long as it holds no digit but zero:
      ".0", ".00", ".0.0" or a bare dot. */
  lemma CompareIgnoresTrailingZero(a: string, z: string, b: string)
    requires NoNonzeroDigit(z)
    ensures Compare(a + ['.'] + z, b) == Compare(a, b) && Compare(b, a + ['.'] + z) == Compare(b, a)
  {
    var longer := a + ['.'] + z;
    forall i: nat ensures At(Split(longer), i) == At(Split(a), i) {
      TrailingZeroParts(a, z, 0, false, true, i);
    }
    SamePartsCompareAlike(Split(longer), Split(a), Split(b));
    CompareAntisymmetric(Split(longer), Split(b), 0);
    CompareAntisymmetric(Split(a), Split(b), 0);
  }

  lemma SamePartsCompareAlike(a: seq<nat>, a': seq<nat>, b: seq<nat>)
    requires forall i: nat :: At(a, i) == At(a', i)
    ensures CompareFrom(a, b, 0) == CompareFrom(a', b, 0)
  {
    CompareMeaning(a, a', 0);
    CompareAntisymmetric(a, a', 0);
    CompareAntisymmetric(a, b, 0);
    CompareAntisymmetric(a', b, 0);
    CompareMeaning(a, b, 0);
    CompareMeaning(a', b, 0);
    if CompareFrom(a, b, 0) <= 0 {
      CompareTransitive(a', a, b);
    }
    if CompareFrom(b, a, 0) <= 0 {
      CompareTransitive(b, a, a');
    }
    if CompareFrom(a', b, 0) <= 0 {
      CompareTransitive(a, a', b);
    }
    if CompareFrom(b, a', 0) <= 0 {
      CompareTransitive(b, a', a);
    }
  }

  /* ----- factors ----- */

  function Normalize(s: string): string {
    ToLower(TrimSpace(s))
  }

  function MinimumVersion(osName: string): Option<string> {
    if Normalize(osName) == "windows" then Some("10")
    else if Normalize(osName) == "macos" then Some("14")
    else None
  }

  predicate Supported(s: Signals) {
    && s.osVersion != "" && MinimumVersion(s.osName).Some?
    && Compare(s.osVersion, MinimumVersion(s.osName).value) >= 0
  }

  predicate On(value: Option<bool>) {
    value == Some(true)
  }

  predicate HardwareKey(c: DeviceContext) {
    Normalize(c.keyProtection) == "tpm" || Normalize(c.keyProtection) == "windows-cert-store"
  }

  predicate SoftwareKey(c: DeviceContext) {
    !HardwareKey(c) && Normalize(c.keyProtection) == "software"
  }

  function IdentityPoints(c: DeviceContext, maximum: int): int {
    if !c.active then 0
    else if HardwareKey(c) then maximum
    else if SoftwareKey(c) then TruncDiv(maximum * 3, 5)
    else 0
  }

  predicate Reporting(c: DeviceContext) {
    c.lastHeartbeatAt.Some? && c.now - c.lastHeartbeatAt.value <= AGENT_STALE_AFTER
  }

  predicate Current(c: DeviceContext) {
    c.expectedAgent == "" || c.agentVersion == c.expectedAgent
  }

  function AgentPoints(c: DeviceContext, maximum: int): int {
    if !Reporting(c) then 0 else if Current(c) then maximum else TruncDiv(maximum, 2)
  }

  function Reported(code: Control, satisfied: bool, maximum: int): Factor {
    Factor(code, if satisfied then maximum else 0, maximum, false)
  }

  function FactorsOf(s: Signals, c: DeviceContext, w: Weights): seq<Factor> {
    [Factor(DeviceIdentity, IdentityPoints(c, w.deviceIdentity), w.deviceIdentity, true),
     Factor(AgentHealth, AgentPoints(c, w.agentHealth), w.agentHealth, true),
     Reported(DiskEncryption, On(s.diskEncryption), w.diskEncryption),
     Reported(SecureBoot, On(s.secureBoot), w.secureBoot),
     Reported(OsSupported, Supported(s), w.osSupported),
     Reported(Firewall, On(s.firewall), w.firewall),
     Reported(ScreenLock, On(s.screenLock), w.screenLock),
     Reported(AntiMalware, On(s.antiMalware), w.antiMalware)]
  }

  /** What a control is worth, and when. */
  function Worth(s: Signals, c: DeviceContext, w: Weights, code: Control): int {
    match code
    case DeviceIdentity =>
      if !c.active then 0
      else if Normalize(c.keyProtection) in {"tpm", "windows-cert-store"} then w.deviceIdentity
      else if Normalize(c.keyProtection) == "software" then TruncDiv(w.deviceIdentity * 3, 5)
      else 0
    case AgentHealth =>
      if c.lastHeartbeatAt.None? || c.now - c.lastHeartbeatAt.value > 900_000_000_000 then 0
      else if c.expectedAgent == "" || c.agentVersion == c.expectedAgent then w.agentHealth
      else TruncDiv(w.agentHealth, 2)
    case DiskEncryption => if s.diskEncryption == Some(true) then w.diskEncryption else 0
    case SecureBoot => if s.secureBoot == Some(true) then w.secureBoot else 0
    case OsSupported =>
      if s.osVersion != "" && ((Normalize(s.osName) == "windows" && Compare(s.osVersion, "10") >= 0)
                               || (Normalize(s.osName) == "macos" && Compare(s.osVersion, "14") >= 0))
      then w.osSupported else 0
    case Firewall => if s.firewall == Some(true) then w.firewall else 0
    case ScreenLock => if s.screenLock == Some(true) then w.screenLock else 0
    case AntiMalware => if s.antiMalware == Some(true) then w.antiMalware else 0
  }

  function Share(w: Weights, code: Control): int {
    match code
    case DeviceIdentity => w.deviceIdentity
    case AgentHealth => w.agentHealth
    case DiskEncryption => w.diskEncryption
    case SecureBoot => w.secureBoot
    case OsSupported => w.osSupported
    case Firewall => w.firewall
    case ScreenLock => w.screenLock
    case AntiMalware => w.antiMalware
  }

  /** Every control has exactly one factor: it carries what that control is worth out of its own weight,
      and is verified exactly for the two the backend knows first-hand. */
  lemma FactorMeaning(s: Signals, c: DeviceContext, w: Weights, code: Control)
    ensures var f := FactorsOf(s, c, w);
            && |f| == 8
            && (forall i :: 0 <= i < 8 ==> (f[i].code == code <==> i == ControlIndex(code)))
            && f[ControlIndex(code)]
               == Factor(code, Worth(s, c, w, code), Share(w, code), code == DeviceIdentity || code == AgentHealth)
  {
  }

  function ControlIndex(code: Control): (i: nat)
    ensures i < 8
  {
    match code
    case DeviceIdentity => 0
    case AgentHealth => 1
    case DiskEncryption => 2
    case SecureBoot => 3
    case OsSupported => 4
    case Firewall => 5
    case ScreenLock => 6
    case AntiMalware => 7
  }

  function Sum(factors: seq<Factor>): int {
    if factors == [] then 0 else Sum(factors[..|factors| - 1]) + factors[|factors| - 1].contribution
  }

  /** The total, written out. */
  function Total(s: Signals, c: DeviceContext, w: Weights): int {
    IdentityPoints(c, w.deviceIdentity) + AgentPoints(c, w.agentHealth)
    + (if On(s.diskEncryption) then w.diskEncryption else 0) + (if On(s.secureBoot) then w.secureBoot else 0)
    + (if Supported(s) then w.osSupported else 0) + (if On(s.firewall) then w.firewall else 0)
    + (if On(s.screenLock) then w.screenLock else 0) + (if On(s.antiMalware) then w.antiMalware else 0)
  }

  lemma SumIsTotal(s: Signals, c: DeviceContext, w: Weights)
    ensures Sum(FactorsOf(s, c, w)) == Total(s, c, w)
  {
    var f := FactorsOf(s, c, w);
    assert f[..8] == f && f[..8][..7] == f[..7] && f[..7][..6] == f[..6] && f[..6][..5] == f[..5];
    assert f[..5][..4] == f[..4] && f[..4][..3] == f[..3] && f[..3][..2] == f[..2] && f[..2][..1] == f[..1];
    assert f[..1][..0] == [];
    assert Sum(f[..1]) == f[0].contribution;
    assert Sum(f[..2]) == Sum(f[..1]) + f[1].contribution;
    assert Sum(f[..3]) == Sum(f[..2]) + f[2].contribution;
    assert Sum(f[..4]) == Sum(f[..3]) + f[3].contribution;
    assert Sum(f[..5]) == Sum(f[..4]) + f[4].contribution;
    assert Sum(f[..6]) == Sum(f[..5]) + f[5].contribution;
    assert Sum(f[..7]) == Sum(f[..6]) + f[6].contribution;
  }

  lemma TotalInRange(s: Signals, c: DeviceContext, w: Weights)
    requires ValidWeights(w)
    ensures 0 <= Total(s, c, w) <= 100
  {
  }

  /** `Evaluate`. For valid weights the score is exactly the sum of the contributions: the clamp
      never bites. */
  method Evaluate(s: Signals, c: DeviceContext, w: Weights) returns (a: Assessment)
    ensures a.factors == FactorsOf(s, c, w) && 0 <= a.score <= 100
    ensures ValidWeights(w) ==> a.score == Sum(a.factors) == Total(s, c, w)
    ensures a.verified <==> forall f :: f in a.factors ==> f.verified
  {
    var factors := FactorsOf(s, c, w);
    var score, allVerified := 0, true;
    for i := 0 to |factors|
      invariant score == Sum(factors[..i])
      invariant allVerified <==> forall j :: 0 <= j < i ==> factors[j].verified
    {
      assert factors[..i + 1][..i] == factors[..i];
      score := score + factors[i].contribution;
      if !factors[i].verified {
        allVerified := false;
      }
    }
    assert factors[..|factors|] == factors;
    SumIsTotal(s, c, w);
    if ValidWeights(w) {
      TotalInRange(s, c, w);
    }
    if score < 0 {
      score := 0;
    }
    if score > 100 {
      score := 100;
    }
    a := Assessment(score, factors, allVerified);
  }

  /* ----- monotonicity ----- */

  /** The second device is at least as well kept: no control turned off, the same OS at the same or a
      newer version, a key at least as strong, an agent at least as healthy. */
  predicate AtLeastAsGood(s: Signals, c: DeviceContext, s': Signals, c': DeviceContext) {
    && (On(s.diskEncryption) ==> On(s'.diskEncryption)) && (On(s.secureBoot) ==> On(s'.secureBoot))
    && (On(s.firewall) ==> On(s'.firewall)) && (On(s.screenLock) ==> On(s'.screenLock))
    && (On(s.antiMalware) ==> On(s'.antiMalware))
    && s.osName == s'.osName && Compare(s.osVersion, s'.osVersion) <= 0
    && (c.active ==> c'.active)
    && (HardwareKey(c) ==> HardwareKey(c')) && (SoftwareKey(c) ==> HardwareKey(c') || SoftwareKey(c'))
    && (Reporting(c) ==> Reporting(c')) && (Current(c) ==> Current(c'))
  }

  /** A newer version of a supported system is supported; in particular it is not blank. */
  lemma NewerStaysSupported(s: Signals, s': Signals)
    requires s.osName == s'.osName && Compare(s.osVersion, s'.osVersion) <= 0 && Supported(s)
    ensures Supported(s')
  {
    var minimum := MinimumVersion(s.osName).value;
    CompareIsTotalPreorder(minimum, s.osVersion, s'.osVersion);
    CompareIsTotalPreorder(minimum, s'.osVersion, minimum);
    if s'.osVersion == "" {
      BlankBelow(minimum);
    }
  }

  lemma BlankBelow(minimum: string)
    requires minimum == "10" || minimum == "14"
    ensures Compare("", minimum) < 0
  {
    var tail := minimum[1..];
    assert Parts(minimum, 0, false, true) == Parts(tail, 1, true, true);
    assert tail[1..] == "";
    assert Parts(tail, 1, true, true) == Parts("", 10 + (tail[0] - '0') as nat, true, true);
    assert Split("") == [0];
    assert |Split(minimum)| == 1 && Split(minimum)[0] >= 10;
    assert CompareFrom(Split(""), Split(minimum), 0) == -1;
  }

  /** Improving a device never lowers its trust score. */
  lemma TrustIsMonotone(s: Signals, c: DeviceContext, s': Signals, c': DeviceContext, w: Weights)
    requires ValidWeights(w) && AtLeastAsGood(s, c, s', c')
    ensures Total(s, c, w) <= Total(s', c', w)
  {
    if Supported(s) {
      NewerStaysSupported(s, s');
    }
    assert IdentityPoints(c, w.deviceIdentity) <= IdentityPoints(c', w.deviceIdentity);
    assert AgentPoints(c, w.agentHealth) <= AgentPoints(c', w.agentHealth);
  }

  /* ----- what to fix first ----- */

  function Shortfall(f: Factor): int {
    f.maximum - f.contribution
  }

  /** Worst first. */
  predicate WorseThan(a: Factor, b: Factor) {
    Shortfall(a) > Shortfall(b)
  }

  function Lacking(factors: seq<Factor>): seq<Factor> {
    if factors == [] then []
    else
      var rest, f := Lacking(factors[..|factors| - 1]), factors[|factors| - 1];
      if Shortfall(f) > 0 then rest + [f] else rest
  }

  /** Inner loop: sink element `i` into the sorted part before it. */
  method InsertInPlace(a: array<Factor>, i: nat)
    requires i < a.Length
    modifies a
    ensures a[..i + 1] == Insert(old(a[..i]), old(a[i]), WorseThan)
    ensures a[i + 1..] == old(a[i + 1..])
  {
    ghost var sorted, x := a[..i], a[i];
    var j := i;
    while j > 0 && WorseThan(a[j], a[j - 1])
      invariant 0 <= j <= i && a[j] == x
      invariant forall k :: 0 <= k < j ==> a[k] == sorted[k]
      invariant forall k :: j < k <= i ==> a[k] == sorted[k - 1]
      invariant forall k :: i < k < a.Length ==> a[k] == old(a[k])
      invariant forall k :: j <= k < i ==> WorseThan(x, sorted[k])
    {
      a[j], a[j - 1] := a[j - 1], a[j];
      j := j - 1;
    }
    InsertAt(sorted, j, x);
    assert a[..i + 1] == sorted[..j] + [x] + sorted[j..];
  }

  /** The in-place insertion sort of `Weakest` is the stable sort by shortfall. */
  method SortByShortfall(a: array<Factor>)
    modifies a
    ensures a[..] == StableSort(old(a[..]), WorseThan)
  {
    if a.Length == 0 {
      return;
    }
    ghost var was := a[..];
    SortPrefixStep(was, 0);
    assert a[..1] == [was[0]];
    for i := 1 to a.Length
      invariant a[..i] == StableSort(was[..i], WorseThan)
      invariant a[i..] == was[i..]
    {
      assert a[i] == a[i..][0] && was[i..][0] == was[i];
      SortPrefixStep(was, i);
      ghost var rest := a[i..][1..];
      assert rest == a[i + 1..] && was[i..][1..] == was[i + 1..];
      InsertInPlace(a, i);
    }
    assert a[..a.Length] == a[..] && was[..a.Length] == was;
  }

  lemma SortPrefixStep(was: seq<Factor>, i: nat)
    requires i < |was|
    ensures StableSort(was[..i + 1], WorseThan) == Insert(StableSort(was[..i], WorseThan), was[i], WorseThan)
  {
    assert was[..i + 1][..i] == was[..i] && was[..i + 1][i] == was[i];
  }

  /** Insertion passes everything less bad and stops at the first that is not. */
  lemma {:induction false} InsertAt(sorted: seq<Factor>, j: nat, x: Factor)
    requires j <= |sorted| && (j > 0 ==> !WorseThan(x, sorted[j - 1]))
    requires forall k :: j <= k < |sorted| ==> WorseThan(x, sorted[k])
    ensures Insert(sorted, x, WorseThan) == sorted[..j] + [x] + sorted[j..]
    decreases |sorted|
  {
    if j < |sorted| {
      var init, last := sorted[..|sorted| - 1], sorted[|sorted| - 1];
      InsertAt(init, j, x);
      assert init[..j] == sorted[..j] && init[j..] + [last] == sorted[j..];
    }
  }

  /** `Assessment.Weakest`: the factors that lost points, worst first, ties in scoring order, cut to
      `limit` when that is positive. */
  method Weakest(factors: seq<Factor>, limit: int) returns (weakest: seq<Factor>)
    ensures var ranked := StableSort(Lacking(factors), WorseThan);
            weakest == if 0 < limit < |ranked| then ranked[..limit] else ranked
  {
    var lacking := [];
    for i := 0 to |factors|
      invariant lacking == Lacking(factors[..i])
    {
      assert factors[..i + 1][..i] == factors[..i] && factors[..i + 1][i] == factors[i];
      if Shortfall(factors[i]) > 0 {
        lacking := lacking + [factors[i]];
      }
    }
    assert factors[..|factors|] == factors;
    var ranked := new Factor[|lacking|](i requires 0 <= i < |lacking| => lacking[i]);
    assert ranked[..] == lacking;
    SortByShortfall(ranked);
    weakest := ranked[..];
    if limit > 0 && |weakest| > limit {
      weakest := weakest[..limit];
    }
  }

  lemma WorseThanIsWeakOrder()
    ensures StrictWeakOrder(WorseThan)
  {
  }

  lemma {:induction false} LackingMembers(factors: seq<Factor>, f: Factor)
    ensures multiset(Lacking(factors))[f] == if Shortfall(f) > 0 then multiset(factors)[f] else 0
  {
    if factors != [] {
      LackingMembers(factors[..|factors| - 1], f);
      assert factors == factors[..|factors| - 1] + [factors[|factors| - 1]];
    }
  }

  /** What that ranking means: sorted worst first, a permutation of the lacking factors, stable, and
      nothing left out is worse than anything kept. */
  lemma RankingMeaning(factors: seq<Factor>, k: Factor, limit: nat)
    ensures var ranked := StableSort(Lacking(factors), WorseThan);
            && Sorted(ranked, WorseThan)
            && multiset(ranked) == multiset(Lacking(factors))
            && (forall f :: f in ranked <==> f in factors && Shortfall(f) > 0)
            && Class(ranked, k, WorseThan) == Class(Lacking(factors), k, WorseThan)
            && (forall i, j :: 0 <= i < limit <= j < |ranked| ==> Shortfall(ranked[i]) >= Shortfall(ranked[j]))
  {
    var lacking := Lacking(factors);
    WorseThanIsWeakOrder();
    SortSorts(lacking, WorseThan);
    SortPermutes(lacking, WorseThan);
    SortIsStable(lacking, k, WorseThan);
    var ranked := StableSort(lacking, WorseThan);
    forall f ensures f in ranked <==> f in factors && Shortfall(f) > 0 {
      LackingMembers(factors, f);
      assert f in ranked <==> f in multiset(ranked);
      assert f in factors <==> f in multiset(factors);
    }
  }
}
