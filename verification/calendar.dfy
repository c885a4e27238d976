/**
 * The arithmetic of Python's `datetime` that the time adjuster relies on:
 * proleptic Gregorian dates in years 1..9999, a date-time as a count of
 * seconds since 0001-01-01 00:00:00, and back. Adding `timedelta(seconds=o)`
 * is adding `o` to that count; leaving years 1..9999 is Python's
 * `OverflowError`.
 */
module Calendar {

  const MIN_YEAR := 1
  const MAX_YEAR := 9999
  const SECONDS_PER_DAY := 86400

  predicate IsLeap(y: int) {
    y % 4 == 0 && (y % 100 != 0 || y % 400 == 0)
  }

  function DaysInYear(y: int): nat {
    if IsLeap(y) then 366 else 365
  }

  function DaysInMonth(y: int, m: int): (n: nat)
    requires 1 <= m <= 12
    ensures 28 <= n <= 31
  {
    if m == 2 then (if IsLeap(y) then 29 else 28)
    else if m == 4 || m == 6 || m == 9 || m == 11 then 30
    else 31
  }

  /** Days in the months of year `y` before month `m` (Python's `_days_before_month`). */
  function DaysBeforeMonth(y: int, m: int): nat
    requires 1 <= m <= 12
  {
    var common :=
      if m == 1 then 0 else if m == 2 then 31 else if m == 3 then 59
      else if m == 4 then 90 else if m == 5 then 120 else if m == 6 then 151
      else if m == 7 then 181 else if m == 8 then 212 else if m == 9 then 243
      else if m == 10 then 273 else if m == 11 then 304 else 334;
    common + (if m > 2 && IsLeap(y) then 1 else 0)
  }

  /** Days in the years before year `y` (Python's closed form `_days_before_year`). */
  function DaysBeforeYear(y: int): nat
    requires y >= MIN_YEAR
  {
    var p := y - 1;
    p * 365 + p / 4 - p / 100 + p / 400
  }

  /** The days of the proleptic calendar: 0001-01-01 up to 9999-12-31. */
  const DAY_COUNT := DaysBeforeYear(MAX_YEAR + 1)
  const SECOND_COUNT := DAY_COUNT * SECONDS_PER_DAY

  /** The closed form is the running sum of the year lengths. */
  lemma DaysBeforeYearStep(y: int)
    requires y >= MIN_YEAR
    ensures DaysBeforeYear(y + 1) == DaysBeforeYear(y) + DaysInYear(y)
  {
    var p := y - 1;
    QuarterStep(p);
    CenturyStep(p);
    QuadCenturyStep(p);
    LeapDivisors(y);
    var leaps := (if y % 4 == 0 then 1 else 0) - (if y % 100 == 0 then 1 else 0) + (if y % 400 == 0 then 1 else 0);
    assert leaps == if IsLeap(y) then 1 else 0;
    calc {
      DaysBeforeYear(y + 1);
      (p + 1) * 365 + (p + 1) / 4 - (p + 1) / 100 + (p + 1) / 400;
      p * 365 + p / 4 - p / 100 + p / 400 + 365 + leaps;
    }
  }

  /** A multiple of 400 is a multiple of 100, and a multiple of 100 is a multiple of 4. */
  lemma LeapDivisors(y: int)
    ensures y % 400 == 0 ==> y % 100 == 0
    ensures y % 100 == 0 ==> y % 4 == 0
  {
    if y % 400 == 0 {
      var k := y / 400;
      assert y == 100 * (4 * k);
    }
    if y % 100 == 0 {
      var k := y / 100;
      assert y == 4 * (25 * k);
    }
  }

  lemma QuarterStep(p: int)
    requires p >= 0
    ensures (p + 1) / 4 == p / 4 + (if (p + 1) % 4 == 0 then 1 else 0)
  {
  }

  lemma CenturyStep(p: int)
    requires p >= 0
    ensures (p + 1) / 100 == p / 100 + (if (p + 1) % 100 == 0 then 1 else 0)
  {
  }

  lemma QuadCenturyStep(p: int)
    requires p >= 0
    ensures (p + 1) / 400 == p / 400 + (if (p + 1) % 400 == 0 then 1 else 0)
  {
  }

  lemma {:induction false} DaysBeforeYearMonotone(a: int, b: int)
    requires MIN_YEAR <= a <= b
    ensures DaysBeforeYear(a) + (if a < b then DaysInYear(a) else 0) <= DaysBeforeYear(b)
    decreases b - a
  {
    if a < b {
      DaysBeforeYearStep(a);
      DaysBeforeYearMonotone(a + 1, b);
    }
  }

  /** The months of a year fill it exactly, one after the other. */
  lemma MonthsFillYear(y: int, m: int)
    requires 1 <= m <= 12
    ensures DaysBeforeMonth(y, m) + DaysInMonth(y, m)
         == if m < 12 then DaysBeforeMonth(y, m + 1) else DaysInYear(y)
  {
  }

  lemma MonthMonotone(y: int, a: int, b: int)
    requires 1 <= a < b <= 12
    ensures DaysBeforeMonth(y, a) + DaysInMonth(y, a) <= DaysBeforeMonth(y, b)
  {
  }

  /** A day of month `m` is a day of year `y`. */
  lemma DayOfYearBound(y: int, m: int, d: int)
    requires 1 <= m <= 12 && 1 <= d <= DaysInMonth(y, m)
    ensures DaysBeforeMonth(y, m) + d - 1 < DaysInYear(y)
  {
  }

  // ---------------------------------------------------------------------------
  // Dates and day numbers
  // ---------------------------------------------------------------------------

  /** A naive date-time as `datetime.strptime` builds it (microseconds are always 0). */
  datatype DateTime = DateTime(year: int, month: int, day: int, hour: int, minute: int, second: int)

  /** The field ranges `datetime` enforces on construction. */
  predicate ValidDateTime(dt: DateTime) {
    && MIN_YEAR <= dt.year <= MAX_YEAR
    && 1 <= dt.month <= 12
    && 1 <= dt.day <= DaysInMonth(dt.year, dt.month)
    && 0 <= dt.hour < 24
    && 0 <= dt.minute < 60
    && 0 <= dt.second < 60
  }

  /** Days from 0001-01-01 to the date (Python's `toordinal() - 1`). */
  function DayNumber(y: int, m: int, d: int): (n: nat)
    requires MIN_YEAR <= y <= MAX_YEAR && 1 <= m <= 12 && 1 <= d <= DaysInMonth(y, m)
    ensures n < DAY_COUNT
  {
    DayOfYearBound(y, m, d);
    DaysBeforeYearMonotone(y, MAX_YEAR + 1);
    DaysBeforeYear(y) + DaysBeforeMonth(y, m) + d - 1
  }

  /** The year holding day `n` counted from the start of year `y`, and the day within it. */
  function YearFrom(y: int, n: nat): (r: (int, nat))
    requires y >= MIN_YEAR
    ensures r.0 >= y && r.1 < DaysInYear(r.0)
    ensures DaysBeforeYear(r.0) + r.1 == DaysBeforeYear(y) + n
    decreases n
  {
    if n < DaysInYear(y) then (y, n)
    else
      DaysBeforeYearStep(y);
      YearFrom(y + 1, n - DaysInYear(y))
  }

  /** The month holding day `n` of year `y` counted from the start of month `m`. */
  function MonthFrom(y: int, m: int, n: nat): (r: (int, nat))
    requires 1 <= m <= 12 && DaysBeforeMonth(y, m) + n < DaysInYear(y)
    ensures m <= r.0 <= 12 && r.1 < DaysInMonth(y, r.0)
    ensures DaysBeforeMonth(y, r.0) + r.1 == DaysBeforeMonth(y, m) + n
    decreases 12 - m
  {
    MonthsFillYear(y, m);
    if n < DaysInMonth(y, m) then (m, n)
    else MonthFrom(y, m + 1, n - DaysInMonth(y, m))
  }

  /** The date of day number `n` (Python's `date.fromordinal(n + 1)`). */
  function CivilFromDayNumber(n: nat): (ymd: (int, int, int))
    requires n < DAY_COUNT
    ensures MIN_YEAR <= ymd.0 <= MAX_YEAR && 1 <= ymd.1 <= 12 && 1 <= ymd.2 <= DaysInMonth(ymd.0, ymd.1)
    ensures DayNumber(ymd.0, ymd.1, ymd.2) == n
  {
    var (y, doy) := YearFrom(MIN_YEAR, n);
    DaysBeforeYearMonotone(MAX_YEAR + 1, if y > MAX_YEAR then y else MAX_YEAR + 1);
    var (m, dm) := MonthFrom(y, 1, doy);
    (y, m, dm + 1)
  }

  /** Day numbers name dates one-to-one. */
  lemma DayNumberInjective(y1: int, m1: int, d1: int, y2: int, m2: int, d2: int)
    requires MIN_YEAR <= y1 <= MAX_YEAR && 1 <= m1 <= 12 && 1 <= d1 <= DaysInMonth(y1, m1)
    requires MIN_YEAR <= y2 <= MAX_YEAR && 1 <= m2 <= 12 && 1 <= d2 <= DaysInMonth(y2, m2)
    requires DayNumber(y1, m1, d1) == DayNumber(y2, m2, d2)
    ensures y1 == y2 && m1 == m2 && d1 == d2
  {
    DayOfYearBound(y1, m1, d1);
    DayOfYearBound(y2, m2, d2);
    if y1 < y2 { DaysBeforeYearMonotone(y1, y2); }
    if y2 < y1 { DaysBeforeYearMonotone(y2, y1); }
    assert y1 == y2;
    if m1 < m2 { MonthMonotone(y1, m1, m2); }
    if m2 < m1 { MonthMonotone(y1, m2, m1); }
  }

  // ---------------------------------------------------------------------------
  // Seconds
  // ---------------------------------------------------------------------------

  /** Seconds from 0001-01-01 00:00:00 to `dt`; always inside the representable range. */
  function ToSeconds(dt: DateTime): (t: nat)
    requires ValidDateTime(dt)
    ensures t < SECOND_COUNT
  {
    DayNumber(dt.year, dt.month, dt.day) * SECONDS_PER_DAY + dt.hour * 3600 + dt.minute * 60 + dt.second
  }

  /** The date-time `t` seconds after 0001-01-01 00:00:00; it converts back to `t`. */
  function FromSeconds(t: int): (dt: DateTime)
    requires 0 <= t < SECOND_COUNT
    ensures ValidDateTime(dt) && ToSeconds(dt) == t
  {
    var days := t / SECONDS_PER_DAY;
    var rest := t % SECONDS_PER_DAY;
    SecondsSplit(t);
    var (y, m, d) := CivilFromDayNumber(days);
    DateTime(y, m, d, rest / 3600, rest % 3600 / 60, rest % 60)
  }

  /** A second count splits into whole days and a time of day that add back up to it. */
  lemma SecondsSplit(t: int)
    requires 0 <= t < SECOND_COUNT
    ensures t / SECONDS_PER_DAY < DAY_COUNT
    ensures var rest := t % SECONDS_PER_DAY;
            && 0 <= rest / 3600 < 24 && 0 <= rest % 3600 / 60 < 60 && 0 <= rest % 60 < 60
            && t == t / SECONDS_PER_DAY * SECONDS_PER_DAY + rest / 3600 * 3600 + rest % 3600 / 60 * 60 + rest % 60
  {
    var days, rest := t / SECONDS_PER_DAY, t % SECONDS_PER_DAY;
    assert t == days * SECONDS_PER_DAY + rest;
    var h, r := rest / 3600, rest % 3600;
    assert rest == h * 3600 + r;
    assert r == r / 60 * 60 + r % 60;
  }

  /** Converting to seconds loses nothing: the seconds name the date-time. */
  lemma ToSecondsInjective(a: DateTime, b: DateTime)
    requires ValidDateTime(a) && ValidDateTime(b) && ToSeconds(a) == ToSeconds(b)
    ensures a == b
  {
    var ra := a.hour * 3600 + a.minute * 60 + a.second;
    var rb := b.hour * 3600 + b.minute * 60 + b.second;
    var na := DayNumber(a.year, a.month, a.day);
    var nb := DayNumber(b.year, b.month, b.day);
    assert na * SECONDS_PER_DAY + ra == nb * SECONDS_PER_DAY + rb;
    assert na == nb && ra == rb;
    DayNumberInjective(a.year, a.month, a.day, b.year, b.month, b.day);
  }

  lemma FromToSeconds(dt: DateTime)
    requires ValidDateTime(dt)
    ensures FromSeconds(ToSeconds(dt)) == dt
  {
    ToSecondsInjective(FromSeconds(ToSeconds(dt)), dt);
  }
}
