/**
 * Proleptic Gregorian calendar arithmetic in the local time zone, as the
 * JavaScript `Date` constructor `new Date(year, monthIndex, day)` performs it.
 * Months are numbered 1..12 here (JavaScript's `getMonth()` + 1). A month or a
 * day outside its range is normalised the way `Date` does: month 13 is January
 * of the next year, day 0 is the last day of the previous month.
 */
module Dates {

  /** A calendar date (year, month 1..12, day of month); components may be out of range. */
  datatype Date = Date(year: int, month: int, day: int)

  /**
   * A moment in local time: the calendar day plus the milliseconds elapsed
   * since that day's local midnight.
   */
  datatype Instant = Instant(day: Date, msOfDay: int)

  const MsPerDay: int := 86400000

  predicate IsLeapYear(y: int) {
    y % 4 == 0 && (y % 100 != 0 || y % 400 == 0)
  }

  function DaysInMonth(y: int, m: int): (r: int)
    requires 1 <= m <= 12
    ensures 28 <= r <= 31
    ensures r == 28 ==> m == 2 && !IsLeapYear(y)
    ensures r == 29 ==> m == 2 && IsLeapYear(y)
  {
    if m == 2 then (if IsLeapYear(y) then 29 else 28)
    else if m == 4 || m == 6 || m == 9 || m == 11 then 30
    else 31
  }

  function YearLength(y: int): int {
    if IsLeapYear(y) then 366 else 365
  }

  /** The leap years among 1 .. y-1 (counting back through year 0 for negative `y`). */
  function LeapsBefore(y: int): int {
    (y - 1) / 4 - (y - 1) / 100 + (y - 1) / 400
  }

  /** Days from 1970-01-01 to January 1st of year `y` (negative before 1970). */
  function DaysBeforeYear(y: int): int {
    365 * (y - 1970) + LeapsBefore(y) - LeapsBefore(1970)
  }

  /** Days from January 1st of `y` to the 1st of month `m` (m == 13: to the next January 1st). */
  function DaysBeforeMonth(y: int, m: int): int
    requires 1 <= m <= 13
  {
    var leap := if IsLeapYear(y) then 1 else 0;
    if m == 1 then 0
    else if m == 2 then 31
    else [59, 90, 120, 151, 181, 212, 243, 273, 304, 334, 365][m - 3] + leap
  }

  /** The year that a possibly out-of-range month `m` of year `y` falls in. */
  function NormalYear(y: int, m: int): int {
    y + (m - 1) / 12
  }

  /** The month 1..12 that a possibly out-of-range month `m` denotes. */
  function NormalMonth(m: int): (r: int)
    ensures 1 <= r <= 12
    ensures 1 <= m <= 12 ==> r == m
  {
    (m - 1) % 12 + 1
  }

  /**
   * The local-midnight day number of `d` counted from 1970-01-01, with the
   * month and day overflow of the `Date` constructor. Comparing two dates'
   * local midnights (`taskDay < startOfToday`) is comparing their day numbers.
   */
  function EpochDay(d: Date): int {
    var y := NormalYear(d.year, d.month);
    DaysBeforeYear(y) + DaysBeforeMonth(y, NormalMonth(d.month)) + d.day - 1
  }

  /** `getDay()`: 0 = Sunday .. 6 = Saturday; 1970-01-01 was a Thursday. */
  function Weekday(d: Date): (r: int)
    ensures 0 <= r < 7
  {
    (EpochDay(d) + 4) % 7
  }

  /** `getTime()` of an instant, relative to the local epoch. */
  function Millis(i: Instant): int {
    EpochDay(i.day) * MsPerDay + i.msOfDay
  }

  /** A date whose components are already in range (what `getFullYear`/`getMonth`/`getDate` return). */
  predicate ValidDate(d: Date) {
    1 <= d.month <= 12 && 1 <= d.day <= DaysInMonth(d.year, d.month)
  }

  /** Stepping `y` by one steps `y / k` exactly when `k` divides `y` (for the three leap-year divisors). */
  lemma DivStep(y: int, k: int)
    requires k == 4 || k == 100 || k == 400
    ensures y / k - (y - 1) / k == if y % k == 0 then 1 else 0
  {
    if k == 4 {
      assert y / 4 - (y - 1) / 4 == if y % 4 == 0 then 1 else 0;
    } else if k == 100 {
      assert y / 100 - (y - 1) / 100 == if y % 100 == 0 then 1 else 0;
    } else {
      assert y / 400 - (y - 1) / 400 == if y % 400 == 0 then 1 else 0;
    }
  }

  /** Each year adds its own length to the day count. */
  lemma YearStep(y: int)
    ensures DaysBeforeYear(y + 1) == DaysBeforeYear(y) + YearLength(y)
  {
    DivStep(y, 4);
    DivStep(y, 100);
    DivStep(y, 400);
  }

  /** The twelve months of a year add up to its length. */
  lemma MonthsFillYear(y: int)
    ensures DaysBeforeMonth(y, 13) == YearLength(y)
  {
  }

  /** Each month adds its own length to the count of days before it. */
  lemma MonthStep(y: int, m: int)
    requires 1 <= m <= 12
    ensures DaysBeforeMonth(y, m + 1) == DaysBeforeMonth(y, m) + DaysInMonth(y, m)
  {
  }

  /**
   * The 1st of the following month (`new Date(y, m + 1, 1)`, with the year
   * wrap after December) is `DaysInMonth(y, m)` days after the 1st of month m.
   */
  lemma NextMonthStart(y: int, m: int)
    requires 1 <= m <= 12
    ensures EpochDay(Date(y, m + 1, 1)) == EpochDay(Date(y, m, 1)) + DaysInMonth(y, m)
  {
    InRangeEpochDay(Date(y, m, 1));
    MonthStep(y, m);
    if m < 12 {
      InRangeEpochDay(Date(y, m + 1, 1));
    } else {
      DecemberNext(y);
    }
  }

  /** For an in-range month, the day number is the plain sum of its parts. */
  lemma InRangeEpochDay(d: Date)
    requires 1 <= d.month <= 12
    ensures EpochDay(d) == DaysBeforeYear(d.year) + DaysBeforeMonth(d.year, d.month) + d.day - 1
  {
    assert NormalYear(d.year, d.month) == d.year;
    assert NormalMonth(d.month) == d.month;
  }

  /** Month 13 is January of the next year, which starts when December ends. */
  lemma DecemberNext(y: int)
    ensures EpochDay(Date(y, 13, 1)) == DaysBeforeYear(y) + DaysBeforeMonth(y, 12) + DaysInMonth(y, 12)
  {
    assert NormalYear(y, 13) == y + 1 && NormalMonth(13) == 1;
    assert EpochDay(Date(y, 13, 1)) == DaysBeforeYear(y + 1);
    YearStep(y);
    MonthsFillYear(y);
  }

  /**
   * `new Date(year, month + 1, 0)`, day 0 of the next month, is the last day
   * of month m; so its `getDate()` is `DaysInMonth(y, m)`.
   */
  lemma DayZeroIsLastDay(y: int, m: int)
    requires 1 <= m <= 12
    ensures EpochDay(Date(y, m + 1, 0)) == EpochDay(Date(y, m, DaysInMonth(y, m)))
    ensures ValidDate(Date(y, m, DaysInMonth(y, m)))
  {
    NextMonthStart(y, m);
  }

  /** The weekday of the next month's 1st advances by the month's length. */
  lemma NextMonthWeekday(y: int, m: int)
    requires 1 <= m <= 12
    ensures Weekday(Date(y, m + 1, 1)) == (Weekday(Date(y, m, 1)) + DaysInMonth(y, m)) % 7
  {
    NextMonthStart(y, m);
    ShiftMod7(EpochDay(Date(y, m, 1)) + 4, DaysInMonth(y, m));
  }

  lemma ShiftMod7(x: int, k: int)
    ensures (x + k) % 7 == (x % 7 + k) % 7
  {
    var q := x / 7;
    assert x == 7 * q + x % 7;
    assert (7 * q + (x % 7 + k)) % 7 == (x % 7 + k) % 7;
  }

  /** Within one month, later days of the month have later day numbers. */
  lemma SameMonthOrder(a: Date, b: Date)
    requires a.year == b.year && a.month == b.month
    ensures EpochDay(a) - EpochDay(b) == a.day - b.day
  {
  }

  /** Later years start later: the day count before a year grows with the year. */
  lemma {:induction false} DaysBeforeYearGrows(a: int, b: int)
    requires a < b
    ensures DaysBeforeYear(a + 1) <= DaysBeforeYear(b)
    decreases b - a
  {
    if a + 1 < b {
      DaysBeforeYearGrows(a + 1, b);
      YearStep(a + 1);
    }
  }

  /** Later months of a year start later. */
  lemma {:induction false} DaysBeforeMonthGrows(y: int, a: int, b: int)
    requires 1 <= a < b <= 13
    ensures DaysBeforeMonth(y, a + 1) <= DaysBeforeMonth(y, b)
    decreases b - a
  {
    if a + 1 < b {
      DaysBeforeMonthGrows(y, a + 1, b);
    }
  }

  /** A valid date's day number lies within its year and within its month. */
  lemma ValidDateBounds(d: Date)
    requires ValidDate(d)
    ensures DaysBeforeYear(d.year) + DaysBeforeMonth(d.year, d.month) <= EpochDay(d)
    ensures EpochDay(d) < DaysBeforeYear(d.year) + DaysBeforeMonth(d.year, d.month + 1)
    ensures EpochDay(d) < DaysBeforeYear(d.year + 1)
    ensures DaysBeforeYear(d.year) <= EpochDay(d)
  {
    assert NormalYear(d.year, d.month) == d.year && NormalMonth(d.month) == d.month;
    if d.month > 1 {
      DaysBeforeMonthGrows(d.year, 1, d.month);
    }
    if d.month < 12 {
      DaysBeforeMonthGrows(d.year, d.month, 13);
    }
    MonthsFillYear(d.year);
    YearStep(d.year);
  }

  /**
   * Distinct valid dates have distinct day numbers, so comparing the
   * `getFullYear`, `getMonth` and `getDate` of two dates is comparing
   * their day numbers.
   */
  lemma SameDayIffSameDate(a: Date, b: Date)
    requires ValidDate(a) && ValidDate(b)
    ensures EpochDay(a) == EpochDay(b) <==> a == b
  {
    if a != b {
      ValidDateBounds(a);
      ValidDateBounds(b);
      if a.year < b.year {
        DaysBeforeYearGrows(a.year, b.year);
      } else if b.year < a.year {
        DaysBeforeYearGrows(b.year, a.year);
      } else if a.month < b.month {
        DaysBeforeMonthGrows(a.year, a.month, b.month);
      } else if b.month < a.month {
        DaysBeforeMonthGrows(a.year, b.month, a.month);
      } else {
        SameMonthOrder(a, b);
      }
    }
  }
}
