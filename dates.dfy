/**
 * Calendar dates of the proleptic Gregorian calendar, as Python's `datetime.date`
 * uses them: ordering, whole-day differences, `date - relativedelta(months=6)`
 * and `date.replace(year=date.year - 1)`.
 */
module Dates {
  import opened Wrappers

  datatype Date = Date(year: int, month: int, day: int)

  predicate IsLeapYear(y: int) {
    y % 4 == 0 && (y % 100 != 0 || y % 400 == 0)
  }

  function DaysInYear(y: int): int {
    if IsLeapYear(y) then 366 else 365
  }

  function DaysInMonth(y: int, m: int): (n: int)
    requires 1 <= m <= 12
    ensures 28 <= n <= 31
    ensures n == 29 <==> m == 2 && IsLeapYear(y)
  {
    if m == 2 then (if IsLeapYear(y) then 29 else 28)
    else if m == 4 || m == 6 || m == 9 || m == 11 then 30
    else 31
  }

  /** A date the `datetime.date` constructor accepts (the 1..9999 year range aside). */
  predicate ValidDate(d: Date) {
    1 <= d.month <= 12 && 1 <= d.day <= DaysInMonth(d.year, d.month)
  }

  /** Python's `a <= b` on dates: lexicographic on (year, month, day). */
  predicate AtOrBefore(a: Date, b: Date) {
    a.year < b.year ||
    (a.year == b.year && (a.month < b.month || (a.month == b.month && a.day <= b.day)))
  }

  predicate Before(a: Date, b: Date) {
    AtOrBefore(a, b) && a != b
  }

  /** Days in the years before `y`, counted from 1 January of year 1. */
  function DaysBeforeYear(y: int): int {
    365 * (y - 1) + (y - 1) / 4 - (y - 1) / 100 + (y - 1) / 400
  }

  /** Days in the months of year `y` before month `m`. */
  function DaysBeforeMonth(y: int, m: int): int
    requires 1 <= m <= 12
  {
    var leap := if IsLeapYear(y) then 1 else 0;
    if m == 1 then 0
    else if m == 2 then 31
    else if m == 3 then 59 + leap
    else if m == 4 then 90 + leap
    else if m == 5 then 120 + leap
    else if m == 6 then 151 + leap
    else if m == 7 then 181 + leap
    else if m == 8 then 212 + leap
    else if m == 9 then 243 + leap
    else if m == 10 then 273 + leap
    else if m == 11 then 304 + leap
    else 334 + leap
  }

  /** Python's `date.toordinal()`: 1 January of year 1 is day 1. */
  function Ordinal(d: Date): int
    requires ValidDate(d)
  {
    DaysBeforeYear(d.year) + DaysBeforeMonth(d.year, d.month) + d.day
  }

  /**
   * `(b - a).days` for two dates, and equally `(now - midnight(a)).days` for any
   * time of day `now` on date `b`: the fraction of a day is floored away.
   */
  function DaysBetween(a: Date, b: Date): int
    requires ValidDate(a) && ValidDate(b)
  {
    Ordinal(b) - Ordinal(a)
  }

  /** `d - relativedelta(months=6)`: six months back, the day clamped to the month's length. */
  function SixMonthsBefore(d: Date): (r: Date)
    requires ValidDate(d)
    ensures ValidDate(r) && Before(r, d)
    ensures r.day == (if d.day <= DaysInMonth(r.year, r.month) then d.day else DaysInMonth(r.year, r.month))
    ensures 12 * r.year + r.month == 12 * d.year + d.month - 6
  {
    var y := if d.month > 6 then d.year else d.year - 1;
    var m := if d.month > 6 then d.month - 6 else d.month + 6;
    var last := DaysInMonth(y, m);
    Date(y, m, if d.day <= last then d.day else last)
  }

  /** `d.replace(year=d.year - 1)`, which raises `ValueError` on 29 February. */
  function OneYearBefore(d: Date): (r: Option<Date>)
    requires ValidDate(d)
    ensures r.None? <==> d.month == 2 && d.day == 29
    ensures r.Some? ==> ValidDate(r.value) && Before(r.value, d)
    ensures r.Some? ==> r.value == Date(d.year - 1, d.month, d.day)
  {
    if d.month == 2 && d.day == 29 then
      // 29 February only exists in leap years, and the year before a leap year is not one
      assert IsLeapYear(d.year);
      assert !IsLeapYear(d.year - 1);
      None
    else
      Some(Date(d.year - 1, d.month, d.day))
  }

  /** Leap days counted by `DaysBeforeYear` step up at multiples of 4, 100 and 400. */
  lemma QuartersStep(y: int)
    ensures y / 4 - (y - 1) / 4 == (if y % 4 == 0 then 1 else 0)
  {
  }

  lemma CenturiesStep(y: int)
    ensures y / 100 - (y - 1) / 100 == (if y % 100 == 0 then 1 else 0)
  {
  }

  lemma QuadCenturiesStep(y: int)
    ensures y / 400 - (y - 1) / 400 == (if y % 400 == 0 then 1 else 0)
  {
  }

  lemma DaysBeforeYearStep(y: int)
    ensures DaysBeforeYear(y + 1) == DaysBeforeYear(y) + DaysInYear(y)
  {
    QuartersStep(y);
    CenturiesStep(y);
    QuadCenturiesStep(y);
  }

  /** The years from `a` up to `b` hold at least one whole year more than the years before `a`. */
  lemma {:induction false} DaysBeforeYearGrows(a: int, b: int)
    requires a < b
    ensures DaysBeforeYear(a) + DaysInYear(a) <= DaysBeforeYear(b)
    decreases b - a
  {
    DaysBeforeYearStep(a);
    if a + 1 < b {
      DaysBeforeYearGrows(a + 1, b);
    }
  }

  lemma DayOfYearBounds(d: Date)
    requires ValidDate(d)
    ensures 1 <= DaysBeforeMonth(d.year, d.month) + d.day <= DaysInYear(d.year)
  {
  }

  lemma MonthsInOrder(y: int, m1: int, m2: int)
    requires 1 <= m1 < m2 <= 12
    ensures DaysBeforeMonth(y, m1) + DaysInMonth(y, m1) <= DaysBeforeMonth(y, m2)
  {
  }

  /** Python compares dates field by field; that is the same as comparing their ordinals. */
  lemma {:induction false} OrderIsOrdinalOrder(a: Date, b: Date)
    requires ValidDate(a) && ValidDate(b)
    ensures AtOrBefore(a, b) <==> Ordinal(a) <= Ordinal(b)
    ensures a == b <==> Ordinal(a) == Ordinal(b)
  {
    DayOfYearBounds(a);
    DayOfYearBounds(b);
    if a.year < b.year {
      DaysBeforeYearGrows(a.year, b.year);
    } else if b.year < a.year {
      DaysBeforeYearGrows(b.year, a.year);
    } else if a.month < b.month {
      MonthsInOrder(a.year, a.month, b.month);
    } else if b.month < a.month {
      MonthsInOrder(a.year, b.month, a.month);
    }
  }

  /** Six months back from July to December stays in the same year. */
  lemma SixMonthsBeforeSameYear(d: Date)
    requires ValidDate(d) && d.month > 6
    ensures 181 <= DaysBetween(SixMonthsBefore(d), d) <= 184
  {
  }

  /** Six months back from January to June lands in the year before. */
  lemma SixMonthsBeforeYearBefore(d: Date)
    requires ValidDate(d) && d.month <= 6
    ensures 181 <= DaysBetween(SixMonthsBefore(d), d) <= 184
  {
    DaysBeforeYearStep(d.year - 1);
  }

  /** A date six months back is at least 181 days back, and at most 184. */
  lemma SixMonthsBeforeDistance(d: Date)
    requires ValidDate(d)
    ensures 181 <= DaysBetween(SixMonthsBefore(d), d) <= 184
  {
    if d.month <= 6 {
      SixMonthsBeforeYearBefore(d);
    } else {
      SixMonthsBeforeSameYear(d);
    }
  }
}
