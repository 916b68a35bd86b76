/**
 * Proleptic Gregorian calendar dates as the pipeline uses them: day
 * arithmetic (`+ timedelta(days=1)`, `(a - b).days`), chronological order,
 * the NBA season-year rule (October to December belong to the next
 * calendar year's season) and the compact `YYYYMMDD` / ISO `YYYY-MM-DD`
 * renderings.
 */
module Dates {
  import opened Common

  datatype Date = Date(year: int, month: int, day: int)

  predicate IsLeapYear(y: int)
  {
    y % 4 == 0 && (y % 100 != 0 || y % 400 == 0)
  }

  function DaysInMonth(y: int, m: int): int
  {
    if m == 2 then (if IsLeapYear(y) then 29 else 28)
    else if m == 4 || m == 6 || m == 9 || m == 11 then 30
    else 31
  }

  function DaysInYear(y: int): int
  {
    if IsLeapYear(y) then 366 else 365
  }

  predicate ValidDate(d: Date)
  {
    1 <= d.year && 1 <= d.month <= 12 && 1 <= d.day <= DaysInMonth(d.year, d.month)
  }

  function DaysBeforeYear(y: int): int
    decreases y
  {
    if y <= 1 then 0 else DaysBeforeYear(y - 1) + DaysInYear(y - 1)
  }

  function DaysBeforeMonth(y: int, m: int): int
    decreases m
  {
    if m <= 1 then 0 else DaysBeforeMonth(y, m - 1) + DaysInMonth(y, m - 1)
  }

  /** Ordinal day number; 0001-01-01 is day 1. */
  function DayNumber(d: Date): int
  {
    DaysBeforeYear(d.year) + DaysBeforeMonth(d.year, d.month) + d.day
  }

  lemma MonthsFillYear(y: int)
    ensures DaysBeforeMonth(y, 13) == DaysInYear(y)
  {
    assert DaysBeforeMonth(y, 2) == 31;
    assert DaysBeforeMonth(y, 3) == 31 + DaysInMonth(y, 2);
    assert DaysBeforeMonth(y, 4) == 62 + DaysInMonth(y, 2);
    assert DaysBeforeMonth(y, 5) == 92 + DaysInMonth(y, 2);
    assert DaysBeforeMonth(y, 6) == 123 + DaysInMonth(y, 2);
    assert DaysBeforeMonth(y, 7) == 153 + DaysInMonth(y, 2);
    assert DaysBeforeMonth(y, 8) == 184 + DaysInMonth(y, 2);
    assert DaysBeforeMonth(y, 9) == 215 + DaysInMonth(y, 2);
    assert DaysBeforeMonth(y, 10) == 245 + DaysInMonth(y, 2);
    assert DaysBeforeMonth(y, 11) == 276 + DaysInMonth(y, 2);
    assert DaysBeforeMonth(y, 12) == 306 + DaysInMonth(y, 2);
    assert DaysBeforeMonth(y, 13) == 337 + DaysInMonth(y, 2);
  }

  /** `d + timedelta(days=1)`. */
  function NextDay(d: Date): (n: Date)
    requires ValidDate(d)
    ensures ValidDate(n) && DayNumber(n) == DayNumber(d) + 1
  {
    if d.day < DaysInMonth(d.year, d.month) then
      Date(d.year, d.month, d.day + 1)
    else if d.month < 12 then
      Date(d.year, d.month + 1, 1)
    else
      MonthsFillYear(d.year);
      Date(d.year + 1, 1, 1)
  }

  /** Strict chronological order on the calendar fields. */
  predicate CalendarBefore(a: Date, b: Date)
  {
    a.year < b.year
    || (a.year == b.year && a.month < b.month)
    || (a.year == b.year && a.month == b.month && a.day < b.day)
  }

  lemma {:induction false} DaysBeforeYearMonotone(a: int, b: int)
    requires 1 <= a <= b
    ensures DaysBeforeYear(a) + (b - a) * 365 <= DaysBeforeYear(b)
    decreases b - a
  {
    if a < b {
      DaysBeforeYearMonotone(a, b - 1);
    }
  }

  lemma {:induction false} DaysBeforeMonthMonotone(y: int, a: int, b: int)
    requires 1 <= a <= b
    ensures DaysBeforeMonth(y, a) + (b - a) * 28 <= DaysBeforeMonth(y, b)
    decreases b - a
  {
    if a < b {
      DaysBeforeMonthMonotone(y, a, b - 1);
    }
  }

  /** A valid date's number lies inside its own year and month. */
  lemma DayNumberBounds(d: Date)
    requires ValidDate(d)
    ensures DaysBeforeYear(d.year) < DayNumber(d) <= DaysBeforeYear(d.year + 1)
    ensures DayNumber(d) <= DaysBeforeYear(d.year) + DaysBeforeMonth(d.year, d.month + 1)
  {
    MonthsFillYear(d.year);
    DaysBeforeMonthMonotone(d.year, d.month + 1, 13);
  }

  lemma DayNumberMonotone(a: Date, b: Date)
    requires ValidDate(a) && ValidDate(b) && CalendarBefore(a, b)
    ensures DayNumber(a) < DayNumber(b)
  {
    DayNumberBounds(a);
    DayNumberBounds(b);
    if a.year < b.year {
      DaysBeforeYearMonotone(a.year + 1, b.year);
    } else if a.month < b.month {
      DaysBeforeMonthMonotone(a.year, a.month + 1, b.month);
    }
  }

  /** Day numbers order dates exactly as the calendar does. */
  lemma DayNumberOrder(a: Date, b: Date)
    requires ValidDate(a) && ValidDate(b)
    ensures DayNumber(a) < DayNumber(b) <==> CalendarBefore(a, b)
    ensures DayNumber(a) == DayNumber(b) <==> a == b
  {
    if CalendarBefore(a, b) {
      DayNumberMonotone(a, b);
    } else if CalendarBefore(b, a) {
      DayNumberMonotone(b, a);
    }
  }

  // ---------------------------------------------------------------------
  // Season year
  // ---------------------------------------------------------------------

  /** `year + 1 if month >= 10 else year`. */
  function SeasonYear(d: Date): (s: int)
    ensures d.year <= s <= d.year + 1
    ensures s == d.year + 1 <==> d.month >= 10
  {
    if d.month >= 10 then d.year + 1 else d.year
  }

  function SeasonOpening(season: int): Date
  {
    Date(season - 1, 10, 1)
  }

  /** A season runs from 1 October of the previous year up to 30 September. */
  lemma SeasonStartsInOctober(d: Date, season: int)
    requires ValidDate(d) && season >= 2
    ensures SeasonYear(d) >= season <==> DayNumber(d) >= DayNumber(SeasonOpening(season))
  {
    DayNumberOrder(d, SeasonOpening(season));
  }

  /** Later games never belong to an earlier season. */
  lemma SeasonYearMonotone(a: Date, b: Date)
    requires ValidDate(a) && ValidDate(b) && DayNumber(a) <= DayNumber(b)
    ensures SeasonYear(a) <= SeasonYear(b)
  {
    DayNumberOrder(a, b);
  }

  // ---------------------------------------------------------------------
  // Renderings
  // ---------------------------------------------------------------------

  /** `strftime('%Y%m%d')` for four-digit years. */
  function CompactDate(d: Date): (s: string)
    requires 0 <= d.year && 0 <= d.month && 0 <= d.day
    ensures |s| == 8 && AllDigits(s)
  {
    PadDigits(d.year, 4) + PadDigits(d.month, 2) + PadDigits(d.day, 2)
  }

  /** `strftime('%Y-%m-%d')` for four-digit years. */
  function IsoDate(d: Date): (s: string)
    requires 0 <= d.year && 0 <= d.month && 0 <= d.day
    ensures |s| == 10 && s[4] == '-' && s[7] == '-'
  {
    PadDigits(d.year, 4) + "-" + PadDigits(d.month, 2) + "-" + PadDigits(d.day, 2)
  }

  /** Reads the calendar fields of an eight-digit `YYYYMMDD` string. */
  function ParseCompactDate(s: string): Date
    requires |s| == 8 && AllDigits(s)
  {
    Date(DigitsValue(s[..4]), DigitsValue(s[4..6]), DigitsValue(s[6..]))
  }

  lemma CompactDateRoundTrip(d: Date)
    requires ValidDate(d) && d.year < 10000
    ensures ParseCompactDate(CompactDate(d)) == d
  {
    var s := CompactDate(d);
    assert s[..4] == PadDigits(d.year, 4);
    assert s[4..6] == PadDigits(d.month, 2);
    assert s[6..] == PadDigits(d.day, 2);
    assert Power10(2) == 100;
    assert Power10(4) == 10000;
    PadDigitsExact(d.year, 4);
    PadDigitsExact(d.month, 2);
    PadDigitsExact(d.day, 2);
  }

  /** `YYYYMMDD` rewritten as `YYYY-MM-DD` by slicing. */
  function IsoFromCompact(s: string): (r: string)
    requires |s| == 8
    ensures |r| == 10 && r[4] == '-' && r[7] == '-'
    ensures r[..4] + r[5..7] + r[8..] == s
  {
    s[..4] + "-" + s[4..6] + "-" + s[6..]
  }

  lemma IsoFromCompactAgrees(d: Date)
    requires 0 <= d.year && 0 <= d.month && 0 <= d.day
    ensures IsoFromCompact(CompactDate(d)) == IsoDate(d)
  {
    var s := CompactDate(d);
    assert s[..4] == PadDigits(d.year, 4);
    assert s[4..6] == PadDigits(d.month, 2);
    assert s[6..] == PadDigits(d.day, 2);
  }
}
