/** The agent's date formatter (agent/netra-agent/src/enrollment.rs): civil dates from day numbers
    and the printed timestamp. The reference is the Gregorian calendar itself: month lengths, the
    leap rule and a day count. */
module CivilTime {
  import opened Common
  import opened Ordering

  datatype Date = Date(year: int, month: int, day: int)

  /* ----- the algorithm ----- */

  function YearOfEra(doe: int): int {
    (doe - doe / 1460 + doe / 36524 - doe / 146_096) / 365
  }

  /** Truncating division, adjusted to round down for days before the first era. */
  function EraOf(z: int): int {
    TruncDiv(if z >= 0 then z else z - 146_096, 146_097)
  }

  /** The date `doy` days after the first of March of year `y`. */
  function FromMarch(y: int, doy: int): Date {
    var mp := (5 * doy + 2) / 153;
    var d := doy - (153 * mp + 2) / 5 + 1;
    var m := if mp < 10 then mp + 3 else mp - 9;
    Date(if m <= 2 then y + 1 else y, m, d)
  }

  function InYear(era: int, doe: int, yoe: int): Date {
    var y := yoe + era * 400;
    var doy := doe - (365 * yoe + yoe / 4 - yoe / 100);
    FromMarch(y, doy)
  }

  /** `civil_from_days`; day 0 is 1970-01-01. */
  function CivilFromDays(days: int): Date {
    var z := days + 719_468;
    var era := EraOf(z);
    var doe := z - era * 146_097;
    InYear(era, doe, YearOfEra(doe))
  }

  /* ----- the calendar ----- */

  predicate IsLeap(y: int) {
    y % 4 == 0 && (y % 100 != 0 || y % 400 == 0)
  }

  function DaysInMonth(y: int, m: int): int {
    if m == 2 then (if IsLeap(y) then 29 else 28)
    else if m == 4 || m == 6 || m == 9 || m == 11 then 30
    else 31
  }

  predicate Valid(d: Date) {
    1 <= d.month <= 12 && 1 <= d.day <= DaysInMonth(d.year, d.month)
  }

  function NextDay(d: Date): Date {
    if d.day < DaysInMonth(d.year, d.month) then d.(day := d.day + 1)
    else if d.month < 12 then Date(d.year, d.month + 1, 1)
    else Date(d.year + 1, 1, 1)
  }

  /** Days from the first of January of year 0 to the first of January of year `y`. */
  function DaysBeforeYear(y: int): int {
    365 * y + (y + 3) / 4 - (y + 99) / 100 + (y + 399) / 400
  }

  function DaysBeforeMonth(y: int, m: int): int
    requires 1 <= m
    decreases m
  {
    if m == 1 then 0 else DaysBeforeMonth(y, m - 1) + DaysInMonth(y, m - 1)
  }

  /** The inverse day count. */
  function DayNumber(d: Date): int
    requires Valid(d)
  {
    DaysBeforeYear(d.year) - 719_528 + DaysBeforeMonth(d.year, d.month) + d.day - 1
  }

  predicate Before(a: Date, b: Date) {
    a.year < b.year || (a.year == b.year && (a.month < b.month || (a.month == b.month && a.day < b.day)))
  }

  /* Division by a positive number, by its defining equation. */

  lemma MulBounds(k: int, n: int)
    requires n > 0
    ensures k >= 1 ==> k * n >= n
    ensures k <= -1 ==> k * n <= -n
  {
  }

  lemma DivIs(a: int, n: int, q: int, r: int)
    requires n > 0 && a == q * n + r && 0 <= r < n
    ensures a / n == q && a % n == r
  {
    var k := a / n - q;
    assert k * n == r - a % n;
    MulBounds(k, n);
  }

  lemma DivAdd(a: int, k: int, n: int)
    requires n > 0
    ensures (a + k * n) / n == a / n + k && (a + k * n) % n == a % n
  {
    DivIs(a + k * n, n, a / n + k, a % n);
  }

  lemma DivStep(y: int, n: int)
    requires n > 0
    ensures (y + n) / n == (y + n - 1) / n + (if y % n == 0 then 1 else 0)
  {
    DivAdd(y, 1, n);
    if y % n == 0 {
      DivIs(y + n - 1, n, y / n, n - 1);
    } else {
      DivIs(y + n - 1, n, y / n + 1, y % n - 1);
    }
  }

  lemma Divisibility(y: int)
    ensures y % 400 == 0 ==> y % 100 == 0
    ensures y % 100 == 0 ==> y % 4 == 0
  {
    if y % 400 == 0 {
      DivIs(y, 100, 4 * (y / 400), 0);
    }
    if y % 100 == 0 {
      DivIs(y, 4, 25 * (y / 100), 0);
    }
  }

  lemma YearLength(y: int)
    ensures DaysBeforeYear(y + 1) == DaysBeforeYear(y) + (if IsLeap(y) then 366 else 365)
  {
    DivStep(y, 4);
    DivStep(y, 100);
    DivStep(y, 400);
    Divisibility(y);
  }

  lemma MonthTable(y: int)
    ensures var leap := if IsLeap(y) then 1 else 0;
            && DaysBeforeMonth(y, 1) == 0 && DaysBeforeMonth(y, 2) == 31
            && DaysBeforeMonth(y, 3) == 59 + leap && DaysBeforeMonth(y, 4) == 90 + leap
            && DaysBeforeMonth(y, 5) == 120 + leap && DaysBeforeMonth(y, 6) == 151 + leap
            && DaysBeforeMonth(y, 7) == 181 + leap && DaysBeforeMonth(y, 8) == 212 + leap
            && DaysBeforeMonth(y, 9) == 243 + leap && DaysBeforeMonth(y, 10) == 273 + leap
            && DaysBeforeMonth(y, 11) == 304 + leap && DaysBeforeMonth(y, 12) == 334 + leap
            && DaysBeforeMonth(y, 13) == 365 + leap
  {
    assert DaysBeforeMonth(y, 3) == DaysBeforeMonth(y, 2) + DaysInMonth(y, 2);
    assert DaysBeforeMonth(y, 5) == DaysBeforeMonth(y, 4) + DaysInMonth(y, 4);
    assert DaysBeforeMonth(y, 7) == DaysBeforeMonth(y, 6) + DaysInMonth(y, 6);
    assert DaysBeforeMonth(y, 9) == DaysBeforeMonth(y, 8) + DaysInMonth(y, 8);
    assert DaysBeforeMonth(y, 11) == DaysBeforeMonth(y, 10) + DaysInMonth(y, 10);
    assert DaysBeforeMonth(y, 13) == DaysBeforeMonth(y, 12) + DaysInMonth(y, 12);
  }

  /** The day count really counts days: it is 0 at the epoch and each next day adds one. */
  lemma DayNumberCountsDays(d: Date)
    requires Valid(d)
    ensures Valid(NextDay(d)) && DayNumber(NextDay(d)) == DayNumber(d) + 1
    ensures DayNumber(Date(1970, 1, 1)) == 0
  {
    YearLength(d.year);
    MonthTable(d.year);
    MonthTable(d.year + 1);
  }

  lemma {:induction false} YearsGrow(y: int, n: nat)
    ensures DaysBeforeYear(y + n) >= DaysBeforeYear(y) + 365 * n
  {
    if n > 0 {
      YearsGrow(y, n - 1);
      YearLength(y + n - 1);
    }
  }

  lemma {:induction false} MonthsGrow(y: int, m: int, n: int)
    requires 1 <= m < n <= 13
    ensures DaysBeforeMonth(y, n) >= DaysBeforeMonth(y, m) + DaysInMonth(y, m)
    decreases n
  {
    if m < n - 1 {
      MonthsGrow(y, m, n - 1);
    }
  }

  lemma LaterYears(y: int, z: int)
    requires y <= z
    ensures DaysBeforeYear(y) <= DaysBeforeYear(z)
  {
    YearsGrow(y, z - y);
  }

  lemma NumberOf(d: Date, years: int, months: int)
    requires Valid(d) && years == DaysBeforeYear(d.year) && months == DaysBeforeMonth(d.year, d.month)
    ensures DayNumber(d) == years - 719_528 + months + d.day - 1
  {
  }

  lemma LaterYear(a: Date, b: Date)
    requires Valid(a) && Valid(b) && a.year < b.year
    ensures DayNumber(a) < DayNumber(b)
  {
    LaterYears(a.year + 1, b.year);
    WithinYear(a);
    FirstMonthNonNegative(b);
    NumberOf(a, DaysBeforeYear(a.year), DaysBeforeMonth(a.year, a.month));
    NumberOf(b, DaysBeforeYear(b.year), DaysBeforeMonth(b.year, b.month));
  }

  lemma LaterMonth(a: Date, b: Date)
    requires Valid(a) && Valid(b) && a.year == b.year && a.month < b.month
    ensures DayNumber(a) < DayNumber(b)
  {
    MonthsGrow(a.year, a.month, b.month);
  }

  /** Earlier dates have smaller numbers. */
  lemma DayNumberMonotone(a: Date, b: Date)
    requires Valid(a) && Valid(b) && Before(a, b)
    ensures DayNumber(a) < DayNumber(b)
  {
    if a.year < b.year {
      LaterYear(a, b);
    } else if a.month < b.month {
      LaterMonth(a, b);
    }
  }

  /** Every date comes before the next year. */
  lemma WithinYear(a: Date)
    requires Valid(a)
    ensures DaysBeforeYear(a.year) + DaysBeforeMonth(a.year, a.month) + a.day <= DaysBeforeYear(a.year + 1)
  {
    YearLength(a.year);
    YearDays(a.year);
    MonthsGrow(a.year, a.month, 13);
  }

  lemma YearDays(y: int)
    ensures DaysBeforeMonth(y, 13) == if IsLeap(y) then 366 else 365
  {
    MonthTable(y);
  }

  lemma FirstMonthNonNegative(b: Date)
    requires Valid(b)
    ensures DaysBeforeMonth(b.year, b.month) >= 0
  {
    if b.month > 1 {
      MonthsGrow(b.year, 1, b.month);
    }
  }

  lemma DayNumberInjective(a: Date, b: Date)
    requires Valid(a) && Valid(b) && DayNumber(a) == DayNumber(b)
    ensures a == b
  {
    if Before(a, b) {
      DayNumberMonotone(a, b);
    } else if Before(b, a) {
      DayNumberMonotone(b, a);
    }
  }

  /* ----- correctness ----- */

  /** Start of a year of the 400-year era, counted from the first of March of its year 0. */
  function EraYearStart(yoe: int): int {
    365 * yoe + yoe / 4 - yoe / 100 + yoe / 400
  }

  /** Day 365 * d + ... of the q-th four-year group of century c lies in year 100c + 4q + d. */
  lemma YearOfEraInGroup(c: int, q: int, r: int, d: int)
    requires 0 <= c <= 3 && 0 <= q <= 24 && 0 <= r < 1461 && (q == 24 && c < 3 ==> r < 1460)
    requires d == if r < 365 then 0 else if r < 730 then 1 else if r < 1095 then 2 else 3
    ensures YearOfEra(36524 * c + 1461 * q + r) == 100 * c + 4 * q + d
  {
    var doe := 36524 * c + 1461 * q + r;
    assert doe / 36524 == c + (if q == 24 && r == 1460 then 1 else 0);
    assert doe / 146_096 == if doe == 146_096 then 1 else 0;
  }

  lemma GroupYearStart(c: int, q: int, d: int)
    requires 0 <= c <= 3 && 0 <= q <= 24 && 0 <= d <= 3
    ensures EraYearStart(100 * c + 4 * q + d) == 36524 * c + 1461 * q + 365 * d
  {
    var y := 100 * c + 4 * q + d;
    assert y / 4 == 25 * c + q && y / 100 == c && y / 400 == 0;
  }

  lemma GroupYearEnd(c: int, q: int, d: int)
    requires 0 <= c <= 3 && 0 <= q <= 24 && 0 <= d <= 3
    ensures EraYearStart(100 * c + 4 * q + d + 1)
         == 36524 * c + 1461 * q + 365 * (d + 1) + (if d == 3 && (q < 24 || c == 3) then 1 else 0)
  {
    if d < 3 {
      GroupYearStart(c, q, d + 1);
    } else if q < 24 {
      GroupYearStart(c, q + 1, 0);
    } else if c < 3 {
      GroupYearStart(c + 1, 0, 0);
    }
  }

  /** Century, four-year group and day within the group. */
  lemma SplitEra(doe: int) returns (c: int, q: int, r: int)
    requires 0 <= doe < 146_097
    ensures doe == 36524 * c + 1461 * q + r
    ensures 0 <= c <= 3 && 0 <= q <= 24 && 0 <= r < 1461 && (q == 24 && c < 3 ==> r < 1460)
  {
    c := Min(3, doe / 36524);
    var ofCentury := doe - 36524 * c;
    q, r := ofCentury / 1461, ofCentury % 1461;
  }

  lemma GroupBounds(c: int, q: int, r: int, d: int, y: int)
    requires 0 <= c <= 3 && 0 <= q <= 24 && 0 <= r < 1461 && (q == 24 && c < 3 ==> r < 1460)
    requires d == if r < 365 then 0 else if r < 730 then 1 else if r < 1095 then 2 else 3
    requires y == 100 * c + 4 * q + d
    ensures 0 <= y <= 399 && EraYearStart(y) <= 36524 * c + 1461 * q + r < EraYearStart(y + 1)
  {
    GroupYearStart(c, q, d);
    GroupYearEnd(c, q, d);
  }

  lemma YearOfEraCorrect(doe: int)
    requires 0 <= doe < 146_097
    ensures 0 <= YearOfEra(doe) <= 399
    ensures EraYearStart(YearOfEra(doe)) <= doe < EraYearStart(YearOfEra(doe) + 1)
  {
    var c, q, r := SplitEra(doe);
    var d := if r < 365 then 0 else if r < 730 then 1 else if r < 1095 then 2 else 3;
    YearOfEraInGroup(c, q, r, d);
    GroupBounds(c, q, r, d, 100 * c + 4 * q + d);
  }

  lemma EraIsFloor(z: int)
    ensures 0 <= z - EraOf(z) * 146_097 < 146_097
  {
  }

  lemma EraShift(y: int, era: int)
    ensures DaysBeforeYear(y + era * 400) == DaysBeforeYear(y) + era * 146_097
    ensures IsLeap(y + era * 400) <==> IsLeap(y)
  {
    DivAdd(y + 3, era * 100, 4);
    DivAdd(y + 99, era * 4, 100);
    DivAdd(y + 399, era, 400);
    DivAdd(y, era * 100, 4);
    DivAdd(y, era * 4, 100);
    DivAdd(y, era, 400);
  }

  /** Within the first era: the first of March of year y, and the length of the year that follows. */
  lemma MarchAnchor(y: int)
    requires 0 <= y <= 399
    ensures DaysBeforeYear(y) + (if IsLeap(y) then 1 else 0) == EraYearStart(y) + 1
    ensures EraYearStart(y + 1) - EraYearStart(y) == if IsLeap(y + 1) then 366 else 365
  {
    DivStep(y, 4);
    DivStep(y, 100);
    DivStep(y, 400);
    Divisibility(y);
    DivAdd(y, 1, 4);
    DivAdd(y, 1, 100);
    DivAdd(y, 1, 400);
    NextMultiple(y, 4);
    NextMultiple(y, 100);
    NextMultiple(y, 400);
    Divisibility(y + 1);
  }

  lemma NextMultiple(y: int, n: int)
    requires n > 1
    ensures (y + 1) / n == y / n + (if (y + 1) % n == 0 then 1 else 0)
  {
    if y % n == n - 1 {
      DivIs(y + 1, n, y / n + 1, 0);
    } else {
      DivIs(y + 1, n, y / n, y % n + 1);
    }
  }

  lemma MonthFromDayOfYear(doy: int)
    requires 0 <= doy <= 365
    ensures var mp := (5 * doy + 2) / 153; var d := doy - (153 * mp + 2) / 5 + 1;
            && 0 <= mp <= 11 && 1 <= d <= 31
            && (mp == 1 || mp == 3 || mp == 6 || mp == 8 ==> d <= 30)
            && (mp == 11 ==> d <= 29 && (d == 29 <==> doy == 365))
            && (mp < 10 <==> doy < 306)
  {
  }

  lemma FromMarchCorrect(y: int, doy: int)
    requires 0 <= doy < 365 || (doy == 365 && IsLeap(y + 1))
    ensures Valid(FromMarch(y, doy))
    ensures DayNumber(FromMarch(y, doy))
         == DaysBeforeYear(y) - 719_528 + 59 + (if IsLeap(y) then 1 else 0) + doy
  {
    MonthFromDayOfYear(doy);
    MonthTable(y);
    MonthTable(y + 1);
    YearLength(y);
  }

  /** A year of the era, anchored in March, on the January calendar. */
  lemma MarchAnchorInEra(era: int, yoe: int, y: int)
    requires 0 <= yoe <= 399 && y == yoe + era * 400
    ensures DaysBeforeYear(y) + (if IsLeap(y) then 1 else 0) == era * 146_097 + EraYearStart(yoe) + 1
    ensures EraYearStart(yoe + 1) - EraYearStart(yoe) == if IsLeap(y + 1) then 366 else 365
  {
    MarchAnchor(yoe);
    EraShift(yoe, era);
    EraShift(yoe + 1, era);
  }

  ghost predicate HasNumber(d: Date, days: int) {
    Valid(d) && DayNumber(d) == days
  }

  lemma InYearIs(era: int, doe: int, yoe: int, y: int, doy: int)
    requires 0 <= yoe <= 399 && y == yoe + era * 400 && doy == doe - EraYearStart(yoe)
    ensures InYear(era, doe, yoe) == FromMarch(y, doy)
  {
    assert yoe / 400 == 0;
  }

  lemma InYearCorrect(era: int, doe: int, yoe: int, days: int)
    requires 0 <= yoe <= 399 && EraYearStart(yoe) <= doe < EraYearStart(yoe + 1)
    requires days + 719_468 == era * 146_097 + doe
    ensures HasNumber(InYear(era, doe, yoe), days)
  {
    var y, start, end := yoe + era * 400, EraYearStart(yoe), EraYearStart(yoe + 1);
    InYearIs(era, doe, yoe, y, doe - start);
    MarchAnchorInEra(era, yoe, y);
    InMarchYear(y, doe - start, DaysBeforeYear(y), era * 146_097 + start, days);
  }

  /** A day of a year counted from March, on the January calendar. */
  lemma InMarchYear(y: int, doy: int, january: int, march: int, days: int)
    requires 0 <= doy < (if IsLeap(y + 1) then 366 else 365) && january == DaysBeforeYear(y)
    requires january + (if IsLeap(y) then 1 else 0) == march + 1 && days + 719_468 == march + doy
    ensures HasNumber(FromMarch(y, doy), days)
  {
    FromMarchCorrect(y, doy);
  }

  lemma InEraCorrect(era: int, doe: int, days: int)
    requires 0 <= doe < 146_097 && days + 719_468 == era * 146_097 + doe
    ensures HasNumber(InYear(era, doe, YearOfEra(doe)), days)
  {
    YearOfEraCorrect(doe);
    InYearCorrect(era, doe, YearOfEra(doe), days);
  }

  lemma CivilUnfolded(days: int, era: int, doe: int)
    requires era == EraOf(days + 719_468) && doe == days + 719_468 - era * 146_097
    ensures CivilFromDays(days) == InYear(era, doe, YearOfEra(doe))
  {
  }

  /** For every day number the algorithm yields a valid Gregorian date with that number. */
  lemma CivilRoundTrip(days: int)
    ensures HasNumber(CivilFromDays(days), days)
  {
    var z := days + 719_468;
    var era := EraOf(z);
    var doe := z - era * 146_097;
    EraIsFloor(z);
    CivilUnfolded(days, era, doe);
    InEraCorrect(era, doe, days);
  }

  /** ... and the other way round, so the two are inverse bijections. */
  lemma DayNumberRoundTrip(d: Date)
    requires Valid(d)
    ensures CivilFromDays(DayNumber(d)) == d
  {
    CivilRoundTrip(DayNumber(d));
    DayNumberInjective(CivilFromDays(DayNumber(d)), d);
  }

  lemma CivilEpoch()
    ensures CivilFromDays(0) == Date(1970, 1, 1)
  {
    DayNumberRoundTrip(Date(1970, 1, 1));
    DayNumberCountsDays(Date(1970, 1, 1));
  }

  /** Successive days are successive dates, from the epoch on in both directions. */
  lemma CivilSuccessor(days: int)
    ensures CivilFromDays(days + 1) == NextDay(CivilFromDays(days))
  {
    CivilRoundTrip(days);
    NextHasNextNumber(CivilFromDays(days), days);
    NumberFixesDate(NextDay(CivilFromDays(days)), days + 1);
  }

  lemma NextHasNextNumber(d: Date, days: int)
    requires HasNumber(d, days)
    ensures HasNumber(NextDay(d), days + 1)
  {
    DayNumberCountsDays(d);
  }

  lemma NumberFixesDate(d: Date, days: int)
    requires HasNumber(d, days)
    ensures CivilFromDays(days) == d
  {
    CivilRoundTrip(days);
    DayNumberInjective(CivilFromDays(days), d);
  }

  lemma CivilMonotone(a: int, b: int)
    requires a < b
    ensures Before(CivilFromDays(a), CivilFromDays(b))
  {
    CivilRoundTrip(a);
    CivilRoundTrip(b);
    if Before(CivilFromDays(b), CivilFromDays(a)) {
      DayNumberMonotone(CivilFromDays(b), CivilFromDays(a));
    }
  }

  /* ----- the printed timestamp ----- */

  function Digit(n: int): char
    requires 0 <= n <= 9
  {
    '0' + n as char
  }

  /** Decimal with at least `width` digits, as `{:0width}` prints it. */
  function Pad(n: nat, width: int): string
    decreases n + Max(width, 0)
  {
    if n < 10 && width <= 1 then [Digit(n)] else Pad(n / 10, width - 1) + [Digit(n % 10)]
  }

  function Pow10(k: nat): nat {
    if k == 0 then 1 else 10 * Pow10(k - 1)
  }

  predicate IsDigits(s: string) {
    forall i :: 0 <= i < |s| ==> '0' <= s[i] <= '9'
  }

  lemma {:induction false} PadWidth(n: nat, width: nat)
    requires width >= 1 && n < Pow10(width)
    ensures |Pad(n, width)| == width && IsDigits(Pad(n, width))
    decreases width
  {
    if width > 1 {
      assert n / 10 < Pow10(width - 1);
      PadWidth(n / 10, width - 1);
    }
  }

  lemma {:induction false} PadMonotone(a: nat, b: nat, width: nat)
    requires width >= 1 && a < b < Pow10(width)
    ensures StrLess(Pad(a, width), Pad(b, width))
    decreases width
  {
    if width > 1 {
      assert a / 10 < Pow10(width - 1) && b / 10 < Pow10(width - 1);
      PadWidth(a / 10, width - 1);
      PadWidth(b / 10, width - 1);
      if a / 10 < b / 10 {
        PadMonotone(a / 10, b / 10, width - 1);
      }
      StrLessPrefix(Pad(a / 10, width - 1), Pad(b / 10, width - 1), [Digit(a % 10)], [Digit(b % 10)]);
    }
  }

  lemma CivilFromEpoch(days: nat)
    ensures Valid(CivilFromDays(days)) && CivilFromDays(days).year >= 1970
  {
    CivilRoundTrip(days);
    CivilEpoch();
    if days > 0 {
      CivilMonotone(0, days);
    }
  }

  datatype Moment = Moment(date: Date, hour: nat, minute: nat, second: nat)

  function MomentOf(seconds: nat): Moment {
    var ofDay := seconds % 86_400;
    Moment(CivilFromDays(seconds / 86_400), ofDay / 3600, ofDay % 3600 / 60, ofDay % 60)
  }

  /** Zero-padded numbers of the given widths, each followed by its separator. */
  function Render(numbers: seq<nat>, widths: seq<nat>, separators: string): string
    requires |numbers| == |widths| == |separators|
    decreases |numbers|
  {
    if numbers == [] then ""
    else Pad(numbers[0], widths[0]) + ([separators[0]] + Render(numbers[1..], widths[1..], separators[1..]))
  }

  const WIDTHS: seq<nat> := [4, 2, 2, 2, 2, 2]
  const SEPARATORS := "--T::Z"

  function FieldsOf(m: Moment): (n: seq<nat>)
    requires m.date.year >= 0 && m.date.month >= 0 && m.date.day >= 0
    ensures |n| == 6
  {
    [m.date.year, m.date.month, m.date.day, m.hour, m.minute, m.second]
  }

  /** The format string `{year:04}-{month:02}-{day:02}T{:02}:{:02}:{:02}Z`. */
  function Print(m: Moment): string
    requires m.date.year >= 0 && m.date.month >= 0 && m.date.day >= 0
  {
    Render(FieldsOf(m), WIDTHS, SEPARATORS)
  }

  lemma EpochOnwards(seconds: nat)
    ensures Valid(MomentOf(seconds).date) && MomentOf(seconds).date.year >= 1970
  {
    CivilFromEpoch(seconds / 86_400);
  }

  /** `UnixTime`'s `Display`. */
  function Format(seconds: nat): string {
    EpochOnwards(seconds);
    Print(MomentOf(seconds))
  }

  /** Digit fields of the given widths, each followed by its separator. */
  predicate Fields(s: string, widths: seq<nat>, separators: string)
    requires |widths| == |separators|
    decreases |widths|
  {
    if widths == [] then s == ""
    else
      && |s| > widths[0] && IsDigits(s[..widths[0]]) && s[widths[0]] == separators[0]
      && Fields(s[widths[0] + 1..], widths[1..], separators[1..])
  }

  /** The number a digit string spells. */
  function Value(s: string): nat {
    if s == "" then 0
    else 10 * Value(s[..|s| - 1]) + (if '0' <= s[|s| - 1] <= '9' then (s[|s| - 1] - '0') as nat else 0)
  }

  /** The numbers in the fields, in order. */
  function Numbers(s: string, widths: seq<nat>, separators: string): (n: seq<nat>)
    requires |widths| == |separators| && Fields(s, widths, separators)
    ensures |n| == |widths|
    decreases |widths|
  {
    if widths == [] then []
    else [Value(s[..widths[0]])] + Numbers(s[widths[0] + 1..], widths[1..], separators[1..])
  }

  /** Year, month, day, hour, minute and second within the ranges of a calendar and a clock. */
  predicate InRange(n: seq<nat>) {
    |n| == 6 && 1 <= n[1] <= 12 && 1 <= n[2] <= DaysInMonth(n[0], n[1]) && n[3] <= 23 && n[4] <= 59 && n[5] <= 59
  }

  /** `date-time` of section 5.6 of RFC 3339, in UTC, without fractions and leap seconds:
      4DIGIT "-" 2DIGIT "-" 2DIGIT "T" 2DIGIT ":" 2DIGIT ":" 2DIGIT "Z", with month 01-12, day 01 to the
      month's length, hour 00-23, minute and second 00-59. */
  predicate DateTime(s: string) {
    Fields(s, WIDTHS, SEPARATORS) && InRange(Numbers(s, WIDTHS, SEPARATORS))
  }

  lemma FieldSlices(field: string, separator: char, rest: string, s: string)
    requires s == field + ([separator] + rest)
    ensures |s| > |field| && s[..|field|] == field && s[|field|] == separator && s[|field| + 1..] == rest
  {
  }

  /** The string consists of these numbers in these fields. */
  ghost predicate Spells(s: string, widths: seq<nat>, separators: string, numbers: seq<nat>) {
    |widths| == |separators| && Fields(s, widths, separators) && Numbers(s, widths, separators) == numbers
  }

  lemma FieldThen(n: nat, field: string, separator: char, rest: string, widths: seq<nat>, separators: string,
                  numbers: seq<nat>)
    requires |widths| == |separators| >= 1 && |field| == widths[0] && IsDigits(field) && separator == separators[0]
    requires Value(field) == n && Spells(rest, widths[1..], separators[1..], numbers)
    ensures Spells(field + ([separator] + rest), widths, separators, [n] + numbers)
  {
    FieldSlices(field, separator, rest, field + ([separator] + rest));
  }

  lemma TwoAndFour()
    ensures Pow10(2) == 100 && Pow10(4) == 10_000
  {
    assert Pow10(2) == 10 * Pow10(1) && Pow10(4) == 10 * Pow10(3) && Pow10(3) == 10 * Pow10(2);
  }

  /** Reading undoes printing, at any width. */
  lemma {:induction false} ValueOfPad(n: nat, width: int)
    ensures Value(Pad(n, width)) == n
    decreases n + Max(width, 0)
  {
    var s := Pad(n, width);
    if n < 10 && width <= 1 {
      assert s[..0] == "";
    } else {
      ValueOfPad(n / 10, width - 1);
      assert s[..|s| - 1] == Pad(n / 10, width - 1) && s[|s| - 1] == Digit(n % 10);
    }
  }

  lemma PrintedField(n: nat, width: nat)
    requires width >= 1 && n < Pow10(width)
    ensures |Pad(n, width)| == width && IsDigits(Pad(n, width)) && Value(Pad(n, width)) == n
  {
    PadWidth(n, width);
    ValueOfPad(n, width);
  }

  predicate Printable(m: Moment) {
    Valid(m.date) && 0 <= m.date.year <= 9999 && m.hour <= 23 && m.minute <= 59 && m.second <= 59
  }

  ghost predicate FitWidths(numbers: seq<nat>, widths: seq<nat>) {
    |numbers| == |widths| && forall i :: 0 <= i < |numbers| ==> widths[i] >= 1 && numbers[i] < Pow10(widths[i])
  }

  /** The rendered fields are the fields. */
  lemma {:induction false} RenderSpells(numbers: seq<nat>, widths: seq<nat>, separators: string)
    requires FitWidths(numbers, widths) && |widths| == |separators|
    ensures Spells(Render(numbers, widths, separators), widths, separators, numbers)
    decreases |numbers|
  {
    if numbers != [] {
      var n, rest := numbers[0], Render(numbers[1..], widths[1..], separators[1..]);
      RenderSpells(numbers[1..], widths[1..], separators[1..]);
      PrintedField(n, widths[0]);
      FieldThen(n, Pad(n, widths[0]), separators[0], rest, widths, separators, numbers[1..]);
      assert [n] + numbers[1..] == numbers;
    }
  }

  lemma FieldsFit(m: Moment)
    requires Printable(m)
    ensures FitWidths(FieldsOf(m), WIDTHS)
  {
    TwoAndFour();
  }

  lemma PrintSpells(m: Moment)
    requires Printable(m)
    ensures Spells(Print(m), WIDTHS, SEPARATORS, FieldsOf(m))
  {
    FieldsFit(m);
    RenderSpells(FieldsOf(m), WIDTHS, SEPARATORS);
  }

  /** The first second of the year 10000. */
  const YEAR_10000 := 253_402_300_800

  lemma LastDayOf9999()
    ensures HasNumber(Date(9999, 12, 31), 2_932_896)
  {
    MonthTable(9999);
  }

  lemma Before10000(seconds: nat)
    requires seconds < YEAR_10000
    ensures Printable(MomentOf(seconds)) && HasNumber(MomentOf(seconds).date, seconds / 86_400)
  {
    EpochOnwards(seconds);
    CivilRoundTrip(seconds / 86_400);
    NotAfter9999(MomentOf(seconds).date, seconds / 86_400);
  }

  lemma NotAfter9999(d: Date, days: int)
    requires HasNumber(d, days) && days <= 2_932_896
    ensures d.year <= 9999
  {
    LastDayOf9999();
    if d.year > 9999 {
      DayNumberMonotone(Date(9999, 12, 31), d);
    }
  }

  lemma PrintableInRange(m: Moment)
    requires Printable(m)
    ensures InRange(FieldsOf(m))
  {
  }

  /** Up to the year 9999 the printed timestamp is an RFC 3339 date-time, every field within its range. */
  lemma FormatIsRfc3339(seconds: nat)
    requires seconds < YEAR_10000
    ensures DateTime(Format(seconds))
  {
    Before10000(seconds);
    PrintableInRange(MomentOf(seconds));
    PrintSpells(MomentOf(seconds));
  }

  /** The time these fields stand for, counted from the epoch. */
  function SecondsOf(n: seq<nat>): int
    requires InRange(n)
  {
    DayNumber(Date(n[0], n[1], n[2])) * 86_400 + n[3] * 3600 + n[4] * 60 + n[5]
  }

  /** The string is a date-time whose fields, read as numbers, stand for the given second. */
  predicate StandsFor(s: string, seconds: int) {
    DateTime(s) && SecondsOf(Numbers(s, WIDTHS, SEPARATORS)) == seconds
  }

  lemma ClockAddsUp(seconds: nat)
    ensures var ofDay := seconds % 86_400;
            seconds / 86_400 * 86_400 + ofDay / 3600 * 3600 + ofDay % 3600 / 60 * 60 + ofDay % 60 == seconds
  {
    var ofDay := seconds % 86_400;
    DivIs(ofDay % 3600, 60, ofDay % 3600 / 60, ofDay % 60);
  }

  lemma FieldsAddUp(m: Moment, days: int, hour: nat, minute: nat, second: nat)
    requires Printable(m) && HasNumber(m.date, days) && m.hour == hour && m.minute == minute && m.second == second
    ensures InRange(FieldsOf(m)) && SecondsOf(FieldsOf(m)) == days * 86_400 + hour * 3600 + minute * 60 + second
  {
  }

  lemma PrintStandsFor(m: Moment, seconds: int)
    requires Printable(m) && InRange(FieldsOf(m)) && SecondsOf(FieldsOf(m)) == seconds
    ensures StandsFor(Print(m), seconds)
  {
    PrintSpells(m);
  }

  /** And it reads back: the numbers in its six fields stand for exactly the second it was printed for. */
  lemma FormatReadsBack(seconds: nat)
    requires seconds < YEAR_10000
    ensures StandsFor(Format(seconds), seconds)
  {
    Before10000(seconds);
    var ofDay := seconds % 86_400;
    FieldsAddUp(MomentOf(seconds), seconds / 86_400, ofDay / 3600, ofDay % 3600 / 60, ofDay % 60);
    ClockAddsUp(seconds);
    PrintStandsFor(MomentOf(seconds), seconds);
  }

  /** Moments in time order, as tuples. */
  predicate Earlier(a: Moment, b: Moment) {
    || Before(a.date, b.date)
    || (a.date == b.date
        && (a.hour < b.hour
            || (a.hour == b.hour && (a.minute < b.minute || (a.minute == b.minute && a.second < b.second)))))
  }

  lemma MomentsInOrder(a: nat, b: nat)
    requires a < b
    ensures Earlier(MomentOf(a), MomentOf(b))
  {
    if a / 86_400 < b / 86_400 {
      CivilMonotone(a / 86_400, b / 86_400);
    } else {
      assert a / 86_400 == b / 86_400 && a % 86_400 < b % 86_400;
      ClockInOrder(a % 86_400, b % 86_400);
    }
  }

  lemma ClockInOrder(x: nat, y: nat)
    requires x < y
    ensures var (h, m, s) := (x / 3600, x % 3600 / 60, x % 60);
            var (h', m', s') := (y / 3600, y % 3600 / 60, y % 60);
            h < h' || (h == h' && (m < m' || (m == m' && s < s')))
  {
    DivIs(x % 3600, 60, x % 3600 / 60, x % 60);
    DivIs(y % 3600, 60, y % 3600 / 60, y % 60);
  }

  lemma FieldsInOrder(x: nat, y: nat, width: nat, sep: string, p: string, q: string)
    requires width >= 1 && x < Pow10(width) && y < Pow10(width)
    requires x < y || (x == y && StrLess(p, q))
    ensures StrLess(Pad(x, width) + (sep + p), Pad(y, width) + (sep + q))
  {
    PadWidth(x, width);
    PadWidth(y, width);
    if x < y {
      PadMonotone(x, y, width);
    } else {
      StrLessIrreflexive(sep);
      StrLessPrefix(sep, sep, p, q);
    }
    StrLessPrefix(Pad(x, width), Pad(y, width), sep + p, sep + q);
  }

  /** Up to the year 9999 timestamps sort as strings exactly in time order. */
  lemma FormatSortsInTimeOrder(a: nat, b: nat)
    requires a < b < YEAR_10000
    ensures StrLess(Format(a), Format(b))
  {
    Before10000(a);
    Before10000(b);
    MomentsInOrder(a, b);
    PrintInOrder(MomentOf(a), MomentOf(b));
  }

  lemma {:induction false} RenderInOrder(a: seq<nat>, b: seq<nat>, widths: seq<nat>, separators: string, k: nat)
    requires FitWidths(a, widths) && FitWidths(b, widths) && |widths| == |separators|
    requires k < |a| && a[k] < b[k] && forall i :: 0 <= i < k ==> a[i] == b[i]
    ensures StrLess(Render(a, widths, separators), Render(b, widths, separators))
    decreases |a|
  {
    var p, q := Render(a[1..], widths[1..], separators[1..]), Render(b[1..], widths[1..], separators[1..]);
    if k > 0 {
      RenderInOrder(a[1..], b[1..], widths[1..], separators[1..], k - 1);
    }
    FieldsInOrder(a[0], b[0], widths[0], [separators[0]], p, q);
  }

  lemma PrintInOrder(m: Moment, n: Moment)
    requires Printable(m) && Printable(n) && Earlier(m, n)
    ensures StrLess(Print(m), Print(n))
  {
    FieldsFit(m);
    FieldsFit(n);
    var k := if m.date.year != n.date.year then 0 else if m.date.month != n.date.month then 1
             else if m.date.day != n.date.day then 2 else if m.hour != n.hour then 3
             else if m.minute != n.minute then 4 else 5;
    RenderInOrder(FieldsOf(m), FieldsOf(n), WIDTHS, SEPARATORS, k);
  }
}
