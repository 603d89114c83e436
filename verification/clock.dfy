/**
 * Naive calendar timestamps with the arithmetic of Python's `datetime`:
 * the proleptic Gregorian ordinal (0001-01-01 is day 1), `weekday()`
 * (Monday is 0) and the whole days of a difference (`timedelta.days`).
 */
module Clock {

  datatype DateTime = DateTime(year: int, month: int, day: int, hour: int, minute: int, second: int, micro: int)

  /** A calendar date, as SQLite's `DATE('now')` gives it. */
  datatype Date = Date(year: int, month: int, day: int)

  const MicrosPerDay: int := 86_400_000_000

  predicate IsLeapYear(y: int)
  {
    y % 4 == 0 && (y % 100 != 0 || y % 400 == 0)
  }

  function DaysInMonth(y: int, m: int): (n: int)
    requires 1 <= m <= 12
    ensures 28 <= n <= 31
  {
    if m == 2 then (if IsLeapYear(y) then 29 else 28)
    else if m == 4 || m == 6 || m == 9 || m == 11 then 30
    else 31
  }

  /** The range `datetime` accepts. */
  predicate ValidDateTime(t: DateTime)
  {
    && 1 <= t.year <= 9999
    && 1 <= t.month <= 12
    && 1 <= t.day <= DaysInMonth(t.year, t.month)
    && 0 <= t.hour < 24
    && 0 <= t.minute < 60
    && 0 <= t.second < 60
    && 0 <= t.micro < 1_000_000
  }

  function DaysBeforeYear(y: int): int
    requires y >= 1
  {
    var p := y - 1;
    p * 365 + p / 4 - p / 100 + p / 400
  }

  function DaysBeforeMonth(y: int, m: int): int
    requires 1 <= m <= 12
  {
    [0, 31, 59, 90, 120, 151, 181, 212, 243, 273, 304, 334][m - 1] + (if m > 2 && IsLeapYear(y) then 1 else 0)
  }

  /** `toordinal()` */
  function Ordinal(t: DateTime): (n: int)
    requires ValidDateTime(t)
    ensures n >= 1
  {
    DaysBeforeYear(t.year) + DaysBeforeMonth(t.year, t.month) + t.day
  }

  /** The calendar day after `t`, at the same time of day (`t + timedelta(days=1)`). */
  function NextDay(t: DateTime): (u: DateTime)
    requires ValidDateTime(t) && !(t.year == 9999 && t.month == 12 && t.day == 31)
    ensures ValidDateTime(u)
  {
    if t.day < DaysInMonth(t.year, t.month) then t.(day := t.day + 1)
    else if t.month < 12 then t.(month := t.month + 1, day := 1)
    else t.(year := t.year + 1, month := 1, day := 1)
  }

  /** A year has 365 days, 366 when it is a leap year. */
  lemma YearLength(y: int)
    requires y >= 1
    ensures DaysBeforeYear(y + 1) == DaysBeforeYear(y) + (if IsLeapYear(y) then 366 else 365)
  {
    var p := y - 1;
    NextQuotient(p, 4);
    NextQuotient(p, 100);
    NextQuotient(p, 400);
  }

  /** Counting one further, the quotient by `k` goes up exactly when the count becomes a multiple of `k`. */
  lemma NextQuotient(p: int, k: int)
    requires p >= 0 && (k == 4 || k == 100 || k == 400)
    ensures (p + 1) / k == p / k + (if (p + 1) % k == 0 then 1 else 0)
  {
    var q, r := p / k, p % k;
    assert p == k * q + r && 0 <= r < k;
    if r == k - 1 {
      assert p + 1 == k * (q + 1);
    } else {
      assert p + 1 == k * q + (r + 1) && r + 1 < k;
    }
  }

  /** Consecutive calendar days have consecutive ordinals. */
  lemma OrdinalNextDay(t: DateTime)
    requires ValidDateTime(t) && !(t.year == 9999 && t.month == 12 && t.day == 31)
    ensures Ordinal(NextDay(t)) == Ordinal(t) + 1
  {
    var u := NextDay(t);
    if t.day < DaysInMonth(t.year, t.month) {
      assert u == t.(day := t.day + 1);
    } else if t.month < 12 {
      MonthLength(t.year, t.month);
      assert u == t.(month := t.month + 1, day := 1);
    } else {
      YearLength(t.year);
      assert u == t.(year := t.year + 1, month := 1, day := 1);
      assert DaysBeforeMonth(t.year, 12) + 31 == (if IsLeapYear(t.year) then 366 else 365);
    }
  }

  /** So the weekday moves on by one from one calendar day to the next. */
  lemma WeekdayNextDay(t: DateTime)
    requires ValidDateTime(t) && !(t.year == 9999 && t.month == 12 && t.day == 31)
    ensures Weekday(NextDay(t)) == (Weekday(t) + 1) % 7
  {
    OrdinalNextDay(t);
    NextResidue(Ordinal(t) + 6);
  }

  /** One step on, the remainder by 7 moves on by one, wrapping from 6 to 0. */
  lemma NextResidue(n: int)
    ensures (n + 1) % 7 == (n % 7 + 1) % 7
  {
    var q, r := n / 7, n % 7;
    assert n == 7 * q + r && 0 <= r < 7;
    if r == 6 {
      assert n + 1 == 7 * (q + 1);
    } else {
      assert n + 1 == 7 * q + (r + 1);
    }
  }

  /** The days before the next month are those before this one and this month's days. */
  lemma MonthLength(y: int, m: int)
    requires 1 <= m < 12
    ensures DaysBeforeMonth(y, m + 1) == DaysBeforeMonth(y, m) + DaysInMonth(y, m)
  {
  }

  /** `weekday()`: Monday is 0, Sunday is 6. */
  function Weekday(t: DateTime): (w: int)
    requires ValidDateTime(t)
    ensures 0 <= w < 7
  {
    (Ordinal(t) + 6) % 7
  }

  /** Microseconds since the start of the ordinal calendar. */
  function Micros(t: DateTime): int
    requires ValidDateTime(t)
  {
    ((((Ordinal(t) * 24 + t.hour) * 60 + t.minute) * 60 + t.second) * 1_000_000) + t.micro
  }

  /** `(later - earlier).days`: the difference rounded down to whole days. */
  function DaysBetween(later: DateTime, earlier: DateTime): (d: int)
    requires ValidDateTime(later) && ValidDateTime(earlier)
    ensures d * MicrosPerDay <= Micros(later) - Micros(earlier) < (d + 1) * MicrosPerDay
  {
    (Micros(later) - Micros(earlier)) / MicrosPerDay
  }

  function DateOf(t: DateTime): Date
  {
    Date(t.year, t.month, t.day)
  }

  /** Two timestamps at the same time of day are a whole number of days apart: the difference of their ordinals. */
  lemma DaysBetweenSameClockTime(later: DateTime, earlier: DateTime)
    requires ValidDateTime(later) && ValidDateTime(earlier)
    requires later.hour == earlier.hour && later.minute == earlier.minute
    requires later.second == earlier.second && later.micro == earlier.micro
    ensures DaysBetween(later, earlier) == Ordinal(later) - Ordinal(earlier)
  {
    var k := Ordinal(later) - Ordinal(earlier);
    assert Micros(later) - Micros(earlier) == k * MicrosPerDay;
  }
}
