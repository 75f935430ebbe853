/**
 * Calendar arithmetic of the tracker.  Instants are integer milliseconds since
 * 1970-01-01T00:00:00 (naive, no time zone), the form in which the exchange
 * reports kline open times.  The month unit works on the civil date of an
 * instant in the proleptic Gregorian calendar; `CivilFromMs` and `MsFromCivil`
 * are proved to be mutually inverse.
 */
module Calendar {
  import opened Wrappers
  import opened Timeframes

  const SecondMs: int := 1000
  const MinuteMs: int := 60 * SecondMs
  const HourMs: int := 60 * MinuteMs
  const DayMs: int := 24 * HourMs

  /** A civil date and the time of day in milliseconds. */
  datatype DateTime = DateTime(year: int, month: int, day: int, msOfDay: int)

  /** The Gregorian rule: every fourth year, except centuries not divisible by 400. */
  predicate IsLeapYear(y: int)
    ensures y % 4 != 0 ==> !IsLeapYear(y)
    ensures y % 4 == 0 && y % 100 != 0 ==> IsLeapYear(y)
    ensures y % 100 == 0 && y % 400 != 0 ==> !IsLeapYear(y)
    ensures y % 400 == 0 ==> IsLeapYear(y)
  {
    y % 4 == 0 && (y % 100 != 0 || y % 400 == 0)
  }

  /** Month lengths, as the table of the month branch lists them. */
  function DaysInMonth(y: int, m: int): (n: int)
    requires 1 <= m <= 12
    ensures 28 <= n <= 31
    ensures n == 29 <==> m == 2 && IsLeapYear(y)
  {
    [31, if IsLeapYear(y) then 29 else 28, 31, 30, 31, 30, 31, 31, 30, 31, 30, 31][m - 1]
  }

  predicate ValidDateTime(c: DateTime)
  {
    && 1 <= c.month <= 12
    && 1 <= c.day <= DaysInMonth(c.year, c.month)
    && 0 <= c.msOfDay < DayMs
  }

  function YearLength(y: int): int
  {
    if IsLeapYear(y) then 366 else 365
  }

  /** Number of days from 1970-01-01 to the first of January of `y` (negative before 1970). */
  function DaysBeforeYear(y: int): int
    decreases if y >= 1970 then y - 1970 else 1970 - y
  {
    if y == 1970 then 0
    else if y > 1970 then DaysBeforeYear(y - 1) + YearLength(y - 1)
    else DaysBeforeYear(y + 1) - YearLength(y)
  }

  /** Number of days in the months of `y` before month `m` (`m == 13` gives the whole year). */
  function DaysBeforeMonth(y: int, m: int): int
    requires 1 <= m <= 13
    decreases m
  {
    if m == 1 then 0 else DaysBeforeMonth(y, m - 1) + DaysInMonth(y, m - 1)
  }

  /** Number of days from 1970-01-01 to the date of `c`. */
  function DayNumber(c: DateTime): int
    requires 1 <= c.month <= 12
  {
    DaysBeforeYear(c.year) + DaysBeforeMonth(c.year, c.month) + c.day - 1
  }

  function MsFromCivil(c: DateTime): int
    requires 1 <= c.month <= 12
  {
    DayNumber(c) * DayMs + c.msOfDay
  }

  lemma DaysBeforeNextYear(y: int)
    ensures DaysBeforeYear(y + 1) == DaysBeforeYear(y) + YearLength(y)
  {
  }

  lemma {:induction false} YearLengthIsMonthSum(y: int)
    ensures DaysBeforeMonth(y, 13) == YearLength(y)
  {
    assert DaysBeforeMonth(y, 3) == 59 + (if IsLeapYear(y) then 1 else 0);
    assert DaysBeforeMonth(y, 6) == DaysBeforeMonth(y, 3) + 92;
    assert DaysBeforeMonth(y, 9) == DaysBeforeMonth(y, 6) + 92;
    assert DaysBeforeMonth(y, 13) == DaysBeforeMonth(y, 9) + 122;
  }

  lemma {:induction false} DaysBeforeYearGrows(y: int, y': int)
    requires y < y'
    ensures DaysBeforeYear(y) + YearLength(y) <= DaysBeforeYear(y')
    decreases y' - y
  {
    DaysBeforeNextYear(y' - 1);
    if y + 1 < y' {
      DaysBeforeYearGrows(y, y' - 1);
    }
  }

  lemma {:induction false} DaysBeforeMonthGrows(y: int, m: int, m': int)
    requires 1 <= m < m' <= 13
    ensures DaysBeforeMonth(y, m) + DaysInMonth(y, m) <= DaysBeforeMonth(y, m')
    decreases m' - m
  {
    if m + 1 < m' {
      DaysBeforeMonthGrows(y, m, m' - 1);
    }
  }

  /**
   * Split a day offset `d` counted from the first of January of `y` into a
   * year and an offset inside that year.
   */
  function YearAndOffset(y: int, d: int): (r: (int, int))
    ensures 0 <= r.1 < YearLength(r.0)
    ensures DaysBeforeYear(r.0) + r.1 == DaysBeforeYear(y) + d
    decreases (if d < 0 then -d else 0), (if d < 0 then 0 else d)
  {
    if d < 0 then
      DaysBeforeNextYear(y - 1);
      YearAndOffset(y - 1, d + YearLength(y - 1))
    else if d < YearLength(y) then
      (y, d)
    else
      DaysBeforeNextYear(y);
      YearAndOffset(y + 1, d - YearLength(y))
  }

  /** Split a day offset inside year `y`, counted from the first of month `m`, into a month and a day. */
  function MonthAndDay(y: int, m: int, d: int): (r: (int, int))
    requires 1 <= m <= 12
    requires 0 <= d < DaysBeforeMonth(y, 13) - DaysBeforeMonth(y, m)
    ensures m <= r.0 <= 12
    ensures 1 <= r.1 <= DaysInMonth(y, r.0)
    ensures DaysBeforeMonth(y, r.0) + r.1 - 1 == DaysBeforeMonth(y, m) + d
    decreases 12 - m
  {
    if d < DaysInMonth(y, m) then (m, d + 1)
    else MonthAndDay(y, m + 1, d - DaysInMonth(y, m))
  }

  /** The civil date and time of day of an instant. */
  function CivilFromMs(t: int): (c: DateTime)
    ensures ValidDateTime(c)
    ensures MsFromCivil(c) == t
  {
    var (y, off) := YearAndOffset(1970, t / DayMs);
    YearLengthIsMonthSum(y);
    var (m, d) := MonthAndDay(y, 1, off);
    DateTime(y, m, d, t % DayMs)
  }

  /** Lexicographic order on the calendar date (year, month, day). */
  predicate DateBefore(a: DateTime, b: DateTime)
  {
    a.year < b.year
    || (a.year == b.year && a.month < b.month)
    || (a.year == b.year && a.month == b.month && a.day < b.day)
  }

  /** The day of a valid date lies inside its year. */
  lemma DayOfYearBounds(c: DateTime)
    requires ValidDateTime(c)
    ensures 0 <= DaysBeforeMonth(c.year, c.month) + c.day - 1 < YearLength(c.year)
  {
    YearLengthIsMonthSum(c.year);
    if c.month < 12 {
      DaysBeforeMonthGrows(c.year, c.month, 13);
    }
  }

  lemma DayNumberMonotone(a: DateTime, b: DateTime)
    requires ValidDateTime(a) && ValidDateTime(b)
    requires DateBefore(a, b)
    ensures DayNumber(a) < DayNumber(b)
  {
    if a.year < b.year {
      DayOfYearBounds(a);
      DayOfYearBounds(b);
      DaysBeforeYearGrows(a.year, b.year);
    } else if a.month < b.month {
      DaysBeforeMonthGrows(a.year, a.month, b.month);
    }
  }

  /** Later calendar dates are later instants, whatever the times of day. */
  lemma MsFromCivilMonotone(a: DateTime, b: DateTime)
    requires ValidDateTime(a) && ValidDateTime(b)
    requires DateBefore(a, b)
    ensures MsFromCivil(a) < MsFromCivil(b)
  {
    DayNumberMonotone(a, b);
  }

  lemma MsFromCivilInjective(a: DateTime, b: DateTime)
    requires ValidDateTime(a) && ValidDateTime(b)
    requires MsFromCivil(a) == MsFromCivil(b)
    ensures a == b
  {
    if DateBefore(a, b) {
      MsFromCivilMonotone(a, b);
    } else if DateBefore(b, a) {
      MsFromCivilMonotone(b, a);
    }
  }

  /** Every valid civil date and time is the civil form of exactly its own instant. */
  lemma CivilRoundTrip(c: DateTime)
    requires ValidDateTime(c)
    ensures CivilFromMs(MsFromCivil(c)) == c
  {
    MsFromCivilInjective(CivilFromMs(MsFromCivil(c)), c);
  }

  /**
   * The month branch: move the month forward by `v`, carrying into the year,
   * and clamp the day to the length of the target month of the target year.
   */
  function AddMonths(c: DateTime, v: nat): (r: DateTime)
    ensures 1 <= r.month <= 12
    ensures r.year * 12 + r.month == c.year * 12 + c.month + v
    ensures r.day == Min(c.day, DaysInMonth(r.year, r.month))
    ensures r.msOfDay == c.msOfDay
    ensures ValidDateTime(c) ==> ValidDateTime(r)
  {
    var month0 := c.month - 1 + v;
    var year := c.year + month0 / 12;
    var month := month0 % 12 + 1;
    var day := Min(c.day, DaysInMonth(year, month));
    DateTime(year, month, day, c.msOfDay)
  }

  /** Moving a valid date forward by at least one month gives a later instant; by zero months, the same date. */
  lemma MonthAdvanceOrder(c: DateTime, v: nat)
    requires ValidDateTime(c)
    ensures v >= 1 ==> MsFromCivil(AddMonths(c, v)) > MsFromCivil(c)
    ensures v == 0 ==> AddMonths(c, v) == c
  {
    if v >= 1 {
      var r := AddMonths(c, v);
      assert DateBefore(c, r);
      MsFromCivilMonotone(c, r);
    }
  }

  /**
   * The next candle boundary after `t` for a parsed timeframe: strictly later
   * for a positive magnitude, `t` itself for magnitude 0.
   */
  function NextTimestamp(t: int, tf: Timeframe): (r: int)
    ensures tf.value >= 1 ==> r > t
    ensures tf.value == 0 ==> r == t
  {
    match tf.unit
    case Second => t + tf.value * SecondMs
    case Minute => t + tf.value * MinuteMs
    case Hour => t + tf.value * HourMs
    case Day => t + tf.value * DayMs
    case Month =>
      var c := CivilFromMs(t);
      MonthAdvanceOrder(c, tf.value);
      MsFromCivil(AddMonths(c, tf.value))
    case Year => t + tf.value * 365 * DayMs
  }

  /** The next candle boundary after `t` for a timeframe token; fails as parsing does. */
  function CalculateNextTimestamp(t: int, token: string): (r: Result<int, TimeframeError>)
    ensures r.Ok? <==> Accepts(token)
    ensures r.Err? ==> r.error == InvalidTimeframeFormat(token)
  {
    match ParseTimeframe(token)
    case Ok(tf) => Ok(NextTimestamp(t, tf))
    case Err(e) => Err(e)
  }

  // ---------------------------------------------------------------------
  // Properties of the advance

  /** Seconds, minutes, hours and days are fixed durations. */
  lemma FixedDurationAdvance(t: int, tf: Timeframe)
    requires tf.unit in {Second, Minute, Hour, Day}
    ensures NextTimestamp(t, tf) == t + tf.value * (match tf.unit
                                                    case Second => 1000
                                                    case Minute => 60 * 1000
                                                    case Hour => 3600 * 1000
                                                    case _ => 86400 * 1000)
  {
  }

  /** A year is a fixed 365 days, whatever leap days the span contains; the time of day is kept. */
  lemma YearAdvance(t: int, v: nat)
    ensures var c, r := CivilFromMs(t), CivilFromMs(NextTimestamp(t, Timeframe(v, Year)));
            && DayNumber(r) == DayNumber(c) + 365 * v
            && r.msOfDay == c.msOfDay
  {
    var c, r := CivilFromMs(t), CivilFromMs(NextTimestamp(t, Timeframe(v, Year)));
    assert DayNumber(r) * DayMs + r.msOfDay == (DayNumber(c) + 365 * v) * DayMs + c.msOfDay;
  }

  /** The month branch, as seen on the civil form of the result. */
  lemma MonthAdvance(t: int, v: nat)
    ensures var c, r := CivilFromMs(t), CivilFromMs(NextTimestamp(t, Timeframe(v, Month)));
            && 1 <= r.month <= 12
            && r.year == c.year + (c.month - 1 + v) / 12
            && r.year * 12 + r.month == c.year * 12 + c.month + v
            && r.day == Min(c.day, DaysInMonth(r.year, r.month))
            && r.msOfDay == c.msOfDay
  {
    var c := CivilFromMs(t);
    CivilRoundTrip(AddMonths(c, v));
  }

  lemma LeapRule()
    ensures IsLeapYear(2024) && IsLeapYear(2000)
    ensures !IsLeapYear(2023) && !IsLeapYear(1900)
  {
  }

  lemma EndOfJanuaryLeap(ms: int)
    ensures AddMonths(DateTime(2024, 1, 31, ms), 1) == DateTime(2024, 2, 29, ms)
  {
  }

  lemma EndOfJanuaryCommon(ms: int)
    ensures AddMonths(DateTime(2023, 1, 31, ms), 1) == DateTime(2023, 2, 28, ms)
  {
  }

  lemma DecemberRollsIntoNextYear(ms: int)
    ensures AddMonths(DateTime(2023, 12, 15, ms), 1) == DateTime(2024, 1, 15, ms)
  {
  }

  /** Scenario: a "5m" timeframe advances 12:00:00 to 12:05:00 of the same day. */
  lemma FiveMinutesAfterNoon(t: int)
    requires t % DayMs == 12 * HourMs
    ensures CalculateNextTimestamp(t, "5m") == Ok(t + 5 * MinuteMs)
    ensures (t + 5 * MinuteMs) / DayMs == t / DayMs
    ensures (t + 5 * MinuteMs) % DayMs == 12 * HourMs + 5 * MinuteMs
  {
    assert "5m"[..1] == "5";
  }
}
