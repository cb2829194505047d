/** Proleptic Gregorian calendar dates at day granularity, the day number that
    orders them, and the month-overflow rule of the JavaScript `Date`
    constructor (MakeDay in section 21.4.1 of ECMA-262), which turns
    `new Date(y, 1, 29)` into 1 March when `y` is not a leap year. */
module Dates {

  /** A calendar date; `month` runs 1..12 (JavaScript's `getMonth() + 1`). */
  datatype Date = Date(year: int, month: int, day: int)

  predicate IsLeapYear(y: int) {
    y % 4 == 0 && (y % 100 != 0 || y % 400 == 0)
  }

  function DaysInMonth(y: int, m: int): (n: int)
    requires 1 <= m <= 12
    ensures 28 <= n <= 31
    ensures n == 29 <==> m == 2 && IsLeapYear(y)
  {
    if m == 2 then (if IsLeapYear(y) then 29 else 28)
    else if m == 4 || m == 6 || m == 9 || m == 11 then 30
    else 31
  }

  function DaysInYear(y: int): int {
    if IsLeapYear(y) then 366 else 365
  }

  predicate ValidDate(d: Date) {
    1 <= d.month <= 12 && 1 <= d.day <= DaysInMonth(d.year, d.month)
  }

  /** A date that a JavaScript `Date` can hold (its getters never return another). */
  type CalDate = d: Date | ValidDate(d) witness Date(1970, 1, 1)

  /** Days from 1 January of year 1 to 1 January of year `y`. */
  function DaysBeforeYear(y: int): int {
    var p := y - 1;
    365 * p + p / 4 - p / 100 + p / 400
  }

  /** Days from 1 January to the first day of month `m` of year `y`. */
  function DaysBeforeMonth(y: int, m: int): int
    requires 1 <= m <= 12
  {
    [0, 31, 59, 90, 120, 151, 181, 212, 243, 273, 304, 334][m - 1]
      + (if m > 2 && IsLeapYear(y) then 1 else 0)
  }

  /** The number of the day `d`, counted from 1 January of year 1 (day 0).
      Comparing two JavaScript dates taken at midnight compares these numbers. */
  function DayNumber(d: CalDate): int {
    DaysBeforeYear(d.year) + DaysBeforeMonth(d.year, d.month) + d.day - 1
  }

  /** `new Date(y, m - 1, d)` for a day of month `d` that a date of some year
      can hold in month `m`: a day past the end of the month rolls over into
      the next month, as MakeDay prescribes. */
  function MakeDate(y: int, m: int, d: int): (r: CalDate)
    requires 1 <= m <= 12 && 1 <= d <= 31
    ensures r.year == y
    ensures DayNumber(r) == DaysBeforeYear(y) + DaysBeforeMonth(y, m) + d - 1
    ensures d <= DaysInMonth(y, m) ==> r == Date(y, m, d)
    ensures LexLessEq(Date(y, m, d), r)
  {
    if d <= DaysInMonth(y, m) then Date(y, m, d)
    else
      MonthStep(y, m);
      Date(y, m + 1, d - DaysInMonth(y, m))
  }

  /** Chronological order on (year, month, day) triples, valid or not. */
  predicate LexLess(a: Date, b: Date) {
    a.year < b.year
    || (a.year == b.year && (a.month < b.month || (a.month == b.month && a.day < b.day)))
  }

  predicate LexLessEq(a: Date, b: Date) {
    LexLess(a, b) || a == b
  }

  /** (month, day) of `a` comes strictly before (month, day) of `b` within a year. */
  predicate MonthDayLess(a: Date, b: Date) {
    a.month < b.month || (a.month == b.month && a.day < b.day)
  }

  predicate SameMonthDay(a: Date, b: Date) {
    a.month == b.month && a.day == b.day
  }

  lemma MonthStep(y: int, m: int)
    requires 1 <= m < 12
    ensures DaysBeforeMonth(y, m + 1) == DaysBeforeMonth(y, m) + DaysInMonth(y, m)
  {
  }

  lemma LastMonth(y: int)
    ensures DaysBeforeMonth(y, 12) + DaysInMonth(y, 12) == DaysInYear(y)
  {
  }

  /** Stepping from y - 1 to y passes one multiple of k exactly when k
      divides y, for the three divisors of the leap rule. */
  lemma DivStep(y: int, k: int)
    requires k == 4 || k == 100 || k == 400
    ensures y / k - (y - 1) / k == (if y % k == 0 then 1 else 0)
  {
    if k == 4 {
      assert y / 4 - (y - 1) / 4 == (if y % 4 == 0 then 1 else 0);
    } else if k == 100 {
      assert y / 100 - (y - 1) / 100 == (if y % 100 == 0 then 1 else 0);
    } else {
      assert y / 400 - (y - 1) / 400 == (if y % 400 == 0 then 1 else 0);
    }
  }

  lemma CenturyDivisors(y: int)
    ensures y % 100 == 0 ==> y % 4 == 0
    ensures y % 400 == 0 ==> y % 100 == 0
  {
    if y % 100 == 0 {
      var n := y / 100;
      assert y == 4 * (25 * n);
    }
    if y % 400 == 0 {
      var n := y / 400;
      assert y == 100 * (4 * n);
    }
  }

  /** Each year holds 365 or 366 days, the leap rule of the Gregorian calendar. */
  lemma YearStep(y: int)
    ensures DaysBeforeYear(y + 1) == DaysBeforeYear(y) + DaysInYear(y)
  {
    DivStep(y, 4);
    DivStep(y, 100);
    DivStep(y, 400);
    CenturyDivisors(y);
  }

  lemma {:induction false} MonthsBefore(y: int, m1: int, m2: int)
    requires 1 <= m1 < m2 <= 12
    ensures DaysBeforeMonth(y, m1) + DaysInMonth(y, m1) <= DaysBeforeMonth(y, m2)
    decreases m2 - m1
  {
    MonthStep(y, m1);
    if m1 + 1 < m2 {
      MonthsBefore(y, m1 + 1, m2);
    }
  }

  /** Day numbers of year `y` are exactly those in [DaysBeforeYear(y), DaysBeforeYear(y + 1)). */
  lemma YearBounds(d: CalDate)
    ensures DaysBeforeYear(d.year) <= DayNumber(d) < DaysBeforeYear(d.year + 1)
  {
    YearStep(d.year);
    LastMonth(d.year);
    if d.month < 12 {
      MonthsBefore(d.year, d.month, 12);
    }
  }

  lemma {:induction false} YearsBefore(a: int, b: int)
    requires a < b
    ensures DaysBeforeYear(a) + DaysInYear(a) <= DaysBeforeYear(b)
    decreases b - a
  {
    YearStep(a);
    if a + 1 < b {
      YearsBefore(a + 1, b);
      YearStep(a + 1);
    }
  }

  /** The day number orders dates chronologically: it is a faithful encoding
      of the calendar order. */
  lemma DayNumberOrder(a: CalDate, b: CalDate)
    ensures DayNumber(a) < DayNumber(b) <==> LexLess(a, b)
  {
    if a.year < b.year {
      Precedes(a, b);
    } else if b.year < a.year {
      Precedes(b, a);
    } else if a.month != b.month || a.day != b.day {
      if LexLess(a, b) { Precedes(a, b); } else { Precedes(b, a); }
    }
  }

  lemma Precedes(a: CalDate, b: CalDate)
    requires LexLess(a, b)
    ensures DayNumber(a) < DayNumber(b)
  {
    if a.year < b.year {
      YearBounds(a);
      YearBounds(b);
      YearsBefore(a.year, b.year);
      YearStep(a.year);
    } else if a.month < b.month {
      MonthsBefore(a.year, a.month, b.month);
    }
  }

  /** Two dates with the same day number are the same date. */
  lemma DayNumberInjective(a: CalDate, b: CalDate)
    requires DayNumber(a) == DayNumber(b)
    ensures a == b
  {
    DayNumberOrder(a, b);
    DayNumberOrder(b, a);
  }

  /** The date after `d`. */
  function NextDay(d: CalDate): (r: CalDate)
    ensures DayNumber(r) == DayNumber(d) + 1
  {
    if d.day < DaysInMonth(d.year, d.month) then Date(d.year, d.month, d.day + 1)
    else if d.month < 12 then
      MonthStep(d.year, d.month);
      Date(d.year, d.month + 1, 1)
    else
      YearStep(d.year);
      LastMonth(d.year);
      Date(d.year + 1, 1, 1)
  }

  /** The date before `d`. */
  function PrevDay(d: CalDate): (r: CalDate)
    ensures DayNumber(r) == DayNumber(d) - 1
  {
    if d.day > 1 then Date(d.year, d.month, d.day - 1)
    else if d.month > 1 then
      MonthStep(d.year, d.month - 1);
      Date(d.year, d.month - 1, DaysInMonth(d.year, d.month - 1))
    else
      YearStep(d.year - 1);
      LastMonth(d.year - 1);
      Date(d.year - 1, 12, 31)
  }

  /** `date.setDate(date.getDate() + n)`: the date `n` days after `d`. */
  function AddDays(d: CalDate, n: int): (r: CalDate)
    ensures DayNumber(r) == DayNumber(d) + n
    decreases if n < 0 then -n else n
  {
    if n == 0 then d
    else if n > 0 then AddDays(NextDay(d), n - 1)
    else AddDays(PrevDay(d), n + 1)
  }

  /** Moving `d` on by the difference of day numbers reaches `target`. */
  lemma AddDaysReaches(d: CalDate, n: int, target: CalDate)
    requires DayNumber(d) + n == DayNumber(target)
    ensures AddDays(d, n) == target
  {
    DayNumberInjective(AddDays(d, n), target);
  }
}
