/**
 * The part of JavaScript's Date that the filter uses: the time value of
 * `new Date(year, monthIndex, day)` (local midnight of that day) and the
 * comparison of two Dates by their time values. Local time is treated as a
 * uniform count of 86 400 000 ms per day from 1 January 1970; the time-zone
 * offset and daylight-saving shifts are not modelled.
 */
module JsDate {

  const MsPerDay: int := 86_400_000

  datatype CalendarDate = CalendarDate(year: int, month: int, day: int)

  /** The Date constructor reads a year 0..99 as 1900..1999. */
  function MakeFullYear(year: int): (y: int)
    ensures 0 <= year <= 99 ==> y == 1900 + year
    ensures !(0 <= year <= 99) ==> y == year
  {
    if 0 <= year <= 99 then 1900 + year else year
  }

  predicate IsLeapYear(y: int) {
    y % 4 == 0 && (y % 100 != 0 || y % 400 == 0)
  }

  function DaysInMonth(y: int, m: int): (n: int)
    requires 1 <= m <= 12
    ensures 28 <= n <= 31
  {
    if m == 2 then (if IsLeapYear(y) then 29 else 28)
    else if m == 4 || m == 6 || m == 9 || m == 11 then 30
    else 31
  }

  predicate ValidDate(d: CalendarDate) {
    1 <= d.month <= 12 && 1 <= d.day <= DaysInMonth(d.year, d.month)
  }

  /** Days from 1 January of year 0 (proleptic Gregorian) to 1 January of year y. */
  function DaysBeforeYear(y: int): int {
    365 * y + (y + 3) / 4 - (y + 99) / 100 + (y + 399) / 400
  }

  /** Days from 1 January of year y to the first day of month m. */
  function DaysBeforeMonth(y: int, m: int): int
    requires 1 <= m <= 12
  {
    var common :=
      if m == 1 then 0 else if m == 2 then 31 else if m == 3 then 59
      else if m == 4 then 90 else if m == 5 then 120 else if m == 6 then 151
      else if m == 7 then 181 else if m == 8 then 212 else if m == 9 then 243
      else if m == 10 then 273 else if m == 11 then 304 else 334;
    if m > 2 && IsLeapYear(y) then common + 1 else common
  }

  /**
   * The day number (days since 1 January 1970) of day `day` of month m of
   * year y. It is linear in `day`, which is how the Date constructor carries
   * a day beyond the end of the month into the next one (and day 0 back
   * into the previous month).
   */
  function DayNumber(y: int, m: int, day: int): int
    requires 1 <= m <= 12
  {
    DaysBeforeYear(y) + DaysBeforeMonth(y, m) + day - 1 - 719_528
  }

  /** The time value of local midnight at the start of a date, as a date picker yields it. */
  function Midnight(d: CalendarDate): int
    requires 1 <= d.month <= 12
  {
    Ordinal(d) * MsPerDay
  }

  /** The time value of `new Date(year, month - 1, day)`: the midnight of the day after the two-digit-year rule. */
  function LocalMidnight(year: int, month: int, day: int): int
    requires 1 <= month <= 12
  {
    Midnight(CalendarDate(MakeFullYear(year), month, day))
  }

  /**
   * Two Dates built from valid calendar days compare as the days do: the
   * earlier day has the smaller time value, and equal time values mean the
   * same day.
   */
  lemma LocalMidnightOrder(y1: int, m1: int, d1: int, y2: int, m2: int, d2: int)
    requires ValidDate(CalendarDate(MakeFullYear(y1), m1, d1)) && ValidDate(CalendarDate(MakeFullYear(y2), m2, d2))
    ensures LocalMidnight(y1, m1, d1) < LocalMidnight(y2, m2, d2)
            <==> Before(CalendarDate(MakeFullYear(y1), m1, d1), CalendarDate(MakeFullYear(y2), m2, d2))
    ensures LocalMidnight(y1, m1, d1) == LocalMidnight(y2, m2, d2)
            <==> CalendarDate(MakeFullYear(y1), m1, d1) == CalendarDate(MakeFullYear(y2), m2, d2)
  {
    var a, b := CalendarDate(MakeFullYear(y1), m1, d1), CalendarDate(MakeFullYear(y2), m2, d2);
    MidnightOrderIsCalendarOrder(a, b);
    MidnightOrder(a, b, 0);
    MidnightOrder(b, a, 0);
  }

  /** Between two midnights lies exactly one day: order of time values is order of day numbers. */
  lemma MidnightOrder(a: CalendarDate, b: CalendarDate, t: int)
    requires 1 <= a.month <= 12 && 1 <= b.month <= 12
    requires 0 <= t < MsPerDay
    ensures Midnight(a) < Midnight(b) + t <==> Ordinal(a) < Ordinal(b) || (Ordinal(a) == Ordinal(b) && t > 0)
    ensures Midnight(a) > Midnight(b) + t <==> Ordinal(a) > Ordinal(b)
  {
    var x, y := Ordinal(a), Ordinal(b);
    if x < y {
      assert x * MsPerDay + MsPerDay <= y * MsPerDay;
    } else if x > y {
      assert y * MsPerDay + MsPerDay <= x * MsPerDay;
    }
  }

  /** Calendar order: earlier year, else earlier month, else earlier day. */
  predicate Before(a: CalendarDate, b: CalendarDate) {
    a.year < b.year
    || (a.year == b.year && a.month < b.month)
    || (a.year == b.year && a.month == b.month && a.day < b.day)
  }

  function Ordinal(d: CalendarDate): int
    requires 1 <= d.month <= 12
  {
    DayNumber(d.year, d.month, d.day)
  }

  lemma FloorStep4(y: int)
    ensures (y + 4) / 4 - (y + 3) / 4 == if y % 4 == 0 then 1 else 0
  {
  }

  lemma FloorStep100(y: int)
    ensures (y + 100) / 100 - (y + 99) / 100 == if y % 100 == 0 then 1 else 0
  {
  }

  lemma FloorStep400(y: int)
    ensures (y + 400) / 400 - (y + 399) / 400 == if y % 400 == 0 then 1 else 0
  {
  }

  /** A year has 366 days exactly when it is a leap year. */
  lemma YearLength(y: int)
    ensures DaysBeforeYear(y + 1) - DaysBeforeYear(y) == if IsLeapYear(y) then 366 else 365
  {
    var d4, d100, d400 := (y + 4) / 4 - (y + 3) / 4, (y + 100) / 100 - (y + 99) / 100, (y + 400) / 400 - (y + 399) / 400;
    FloorStep4(y);
    FloorStep100(y);
    FloorStep400(y);
    CenturiesDivide(y);
    assert DaysBeforeYear(y + 1) - DaysBeforeYear(y) == 365 + d4 - d100 + d400;
  }

  /** A multiple of 100 is a multiple of 4, and a multiple of 400 is a multiple of 100. */
  lemma CenturiesDivide(y: int)
    ensures y % 100 == 0 ==> y % 4 == 0
    ensures y % 400 == 0 ==> y % 100 == 0
  {
    if y % 100 == 0 {
      var q := y / 100;
      assert y == 4 * (25 * q);
    }
    if y % 400 == 0 {
      var q := y / 400;
      assert y == 100 * (4 * q);
    }
  }

  lemma {:induction false} YearsAscend(y1: int, y2: int)
    requires y1 < y2
    ensures DaysBeforeYear(y1 + 1) <= DaysBeforeYear(y2)
    decreases y2 - y1
  {
    if y1 + 1 < y2 {
      YearsAscend(y1 + 1, y2);
      YearLength(y1 + 1);
    }
  }

  lemma MonthsAscend(y: int, m1: int, m2: int)
    requires 1 <= m1 < m2 <= 12
    ensures DaysBeforeMonth(y, m1) + DaysInMonth(y, m1) <= DaysBeforeMonth(y, m2)
  {
  }

  lemma LastMonthEndsYear(y: int)
    ensures DaysBeforeMonth(y, 12) + DaysInMonth(y, 12) == DaysBeforeYear(y + 1) - DaysBeforeYear(y)
  {
    YearLength(y);
  }

  /** A valid date falls within its own year. */
  lemma WithinYear(d: CalendarDate)
    requires ValidDate(d)
    ensures DaysBeforeYear(d.year) - 719_528 <= Ordinal(d) < DaysBeforeYear(d.year + 1) - 719_528
  {
    LastMonthEndsYear(d.year);
    if d.month < 12 {
      MonthsAscend(d.year, d.month, 12);
    }
  }

  lemma BeforeHasSmallerOrdinal(a: CalendarDate, b: CalendarDate)
    requires ValidDate(a) && ValidDate(b) && Before(a, b)
    ensures Ordinal(a) < Ordinal(b)
  {
    if a.year < b.year {
      WithinYear(a);
      WithinYear(b);
      YearsAscend(a.year, b.year);
    } else if a.month < b.month {
      MonthsAscend(a.year, a.month, b.month);
    }
  }

  /**
   * On valid dates, comparing the Date time values is calendar order: the
   * filter's `<` and `>` on Dates compare days as a person would.
   */
  lemma MidnightOrderIsCalendarOrder(a: CalendarDate, b: CalendarDate)
    requires ValidDate(a) && ValidDate(b)
    ensures Ordinal(a) < Ordinal(b) <==> Before(a, b)
    ensures Ordinal(a) == Ordinal(b) <==> a == b
  {
    if Before(a, b) {
      BeforeHasSmallerOrdinal(a, b);
    } else if Before(b, a) {
      BeforeHasSmallerOrdinal(b, a);
    }
  }

  /**
   * Day overflow: the day after a month's last day is the first of the next
   * month, and the day after 31 December is 1 January of the next year.
   */
  lemma DayOverflowCarries(y: int, m: int)
    requires 1 <= m <= 12
    ensures m < 12 ==> DayNumber(y, m, DaysInMonth(y, m) + 1) == DayNumber(y, m + 1, 1)
    ensures m == 12 ==> DayNumber(y, 12, DaysInMonth(y, 12) + 1) == DayNumber(y + 1, 1, 1)
  {
    if m == 12 {
      LastMonthEndsYear(y);
    }
  }
}
