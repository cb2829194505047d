/** The birthday arithmetic: age, the next occurrence of a birth date and the
    number of days until it, in each of the variants the code base carries.
    "Today" is a parameter; every function reads the clock once. */
module Recurrence {
  import opened Dates
  import opened Opt

  /** The age shown by the client: `getAge` and both copies of `calculateAge`.
      A missing or unparseable date gives 0.  The year difference is reduced
      by one when today's (month, day) is on or before the birth (month, day),
      so on the anniversary itself the age is one less than the years elapsed.
      Stated independently of the code: the birthday `r` years after the birth
      year falls strictly before today, and the next one on or after today. */
  function ClientAge(birth: Option<CalDate>, today: CalDate): (r: int)
    ensures birth.None? ==> r == 0
    ensures birth.Some? ==>
      var b := birth.value;
      LexLess(Date(b.year + r, b.month, b.day), today)
      && LexLessEq(today, Date(b.year + r + 1, b.month, b.day))
  {
    match birth
    case None => 0
    case Some(b) =>
      var age := today.year - b.year;
      var monthDiff := today.month - b.month;
      var dayDiff := today.day - b.day;
      if monthDiff < 0 || (monthDiff == 0 && dayDiff <= 0) then age - 1 else age
  }

  /** `calculateAge` of the older form: the year difference, reduced by one
      only when the birth (month, day) is strictly later in the year than
      today's.  Independently: the birthday `r` years after the birth year
      falls on or before today, and the next one strictly after today. */
  function LegacyAge(b: CalDate, today: CalDate): (r: int)
    ensures LexLessEq(Date(b.year + r, b.month, b.day), today)
    ensures LexLess(today, Date(b.year + r + 1, b.month, b.day))
  {
    var age := today.year - b.year;
    var monthDiff := today.month - b.month;
    if monthDiff < 0 || (monthDiff == 0 && today.day < b.day) then age - 1 else age
  }

  /** The two age rules agree except on the anniversary, where the client's is
      one lower; both are the year difference or one less. */
  lemma AgeRulesCompared(b: CalDate, today: CalDate)
    ensures ClientAge(Some(b), today) == LegacyAge(b, today) - (if SameMonthDay(b, today) then 1 else 0)
    ensures today.year - b.year - 1 <= ClientAge(Some(b), today) <= today.year - b.year
    ensures today.year - b.year - 1 <= LegacyAge(b, today) <= today.year - b.year
    ensures LegacyAge(b, today) == today.year - b.year <==> !MonthDayLess(today, b)
  {
  }

  /** `new Date(year, birth.getMonth(), birth.getDate())`: the birth's
      (month, day) in that year, or 1 March when the birth is a 29 February
      and the year is a common one. */
  function OccurrenceIn(b: CalDate, year: int): (r: CalDate)
    ensures r.year == year
    ensures ValidDate(Date(year, b.month, b.day)) ==> r == Date(year, b.month, b.day)
    ensures !ValidDate(Date(year, b.month, b.day)) ==>
      b.month == 2 && b.day == 29 && !IsLeapYear(year) && r == Date(year, 3, 1)
  {
    MakeDate(year, b.month, b.day)
  }

  /** This year's occurrence, moved to the following year (by `setFullYear`
      on the occurrence already built) when it is strictly before today. It
      is never before today, at most 365 days after it, in this year exactly
      when this year's occurrence is not yet past, and on today exactly when
      this year's occurrence is today. It falls on the birth's (month, day);
      a 29 February birth is met on 29 February only when that day of this
      year is not yet past, and on 1 March otherwise, even in a leap year
      when the occurrence was moved on from a common year's 1 March. */
  function NextOccurrence(b: CalDate, today: CalDate): (r: CalDate)
    ensures DayNumber(today) <= DayNumber(r) <= DayNumber(today) + 365
    ensures r.year == today.year <==> DayNumber(today) <= DayNumber(OccurrenceIn(b, today.year))
    ensures r.year != today.year ==> r.year == today.year + 1
    ensures DayNumber(r) == DayNumber(today) <==> OccurrenceIn(b, today.year) == today
    ensures !(b.month == 2 && b.day == 29) ==> SameMonthDay(r, b)
    ensures b.month == 2 && b.day == 29 ==>
      r == if r.year == today.year && IsLeapYear(today.year) then Date(r.year, 2, 29) else Date(r.year, 3, 1)
  {
    var occ := OccurrenceIn(b, today.year);
    if DayNumber(occ) < DayNumber(today) then
      Rollover(occ, today);
      MakeDate(today.year + 1, occ.month, occ.day)
    else
      DayNumberOrder(occ, today);
      DayNumberOrder(today, occ);
      occ
  }

  /** No day from today up to the next occurrence falls on the birth's
      (month, day): the next occurrence is the first one. A 29 February
      birth is the exception, since a moved-on 1 March can lie after a
      29 February of a leap year. */
  lemma NextOccurrenceFirst(b: CalDate, today: CalDate, d: CalDate)
    requires !(b.month == 2 && b.day == 29)
    requires DayNumber(today) <= DayNumber(d) < DayNumber(NextOccurrence(b, today))
    ensures !SameMonthDay(d, b)
  {
    var r := NextOccurrence(b, today);
    DayNumberOrder(d, r);
    DayNumberOrder(d, today);
  }

  /** An occurrence already past this year falls, a year on, after today
      and no more than 365 days after it. */
  lemma Rollover(occ: CalDate, today: CalDate)
    requires occ.year == today.year && DayNumber(occ) < DayNumber(today)
    ensures var r := MakeDate(today.year + 1, occ.month, occ.day);
      DayNumber(today) < DayNumber(r) <= DayNumber(today) + 365
  {
    YearBounds(today);
    YearStep(today.year);
  }

  /** The "Turning" age (client age plus one) is the age reached at the next
      occurrence, except for a 29 February birth on 1 March of a common
      year: the occurrence has rolled over onto today, while the age rule,
      comparing (month, day) as numbers, counts the birthday as past. */
  lemma TurningIsAgeAtNextOccurrence(b: CalDate, today: CalDate)
    ensures ClientAge(Some(b), today) + 1 == NextOccurrence(b, today).year - b.year
            || (b.month == 2 && b.day == 29 && !IsLeapYear(today.year) && today.month == 3 && today.day == 1)
  {
    var occ := OccurrenceIn(b, today.year);
    DayNumberOrder(occ, today);
    DayNumberOrder(today, occ);
  }

  /** `calculateDaysUntilBirthday` (both copies): null without a date,
      otherwise whole days from today to the next occurrence: moving today
      on by the count reaches the next occurrence. */
  function DaysUntil(birth: Option<CalDate>, today: CalDate): (r: Option<int>)
    ensures birth.None? <==> r.None?
    ensures r.Some? ==> AddDays(today, r.value) == NextOccurrence(birth.value, today)
    ensures r.Some? ==> 0 <= r.value <= 365
    ensures r.Some? ==> (r.value == 0 <==> OccurrenceIn(birth.value, today.year) == today)
  {
    match birth
    case None => None
    case Some(b) =>
      var n := DayNumber(NextOccurrence(b, today)) - DayNumber(today);
      AddDaysReaches(today, n, NextOccurrence(b, today));
      Some(n)
  }

  /** Zero days remain exactly on the anniversary, or, for a 29 February
      birthday in a common year, on 1 March (where the occurrence rolls over). */
  lemma DaysUntilZero(b: CalDate, today: CalDate)
    ensures DaysUntil(Some(b), today) == Some(0) <==>
      SameMonthDay(b, today)
      || (b.month == 2 && b.day == 29 && !IsLeapYear(today.year) && today.month == 3 && today.day == 1)
  {
  }

  /** `getDaysUntil` of the older upcoming list: this year's occurrence minus
      today, never moved to next year, so a birthday already past this year
      gives a count of zero or less. */
  function DaysUntilThisYear(b: CalDate, today: CalDate): (r: int)
    ensures MonthDayLess(today, b) ==> r > 0
    ensures MonthDayLess(b, today) ==> r <= 0
    ensures SameMonthDay(b, today) ==> r == 0
  {
    var occ := OccurrenceIn(b, today.year);
    ThisYearOrder(b, today);
    DayNumberOrder(today, occ);
    DayNumberOrder(occ, today);
    DayNumber(occ) - DayNumber(today)
  }

  /** The older count is the number of days from today to this year's
      occurrence, negative when that occurrence is past. */
  lemma DaysUntilThisYearReaches(b: CalDate, today: CalDate)
    ensures AddDays(today, DaysUntilThisYear(b, today)) == OccurrenceIn(b, today.year)
  {
    AddDaysReaches(today, DaysUntilThisYear(b, today), OccurrenceIn(b, today.year));
  }

  /** This year's occurrence is after today when the birth's (month, day)
      is, not after it when the birth's is earlier, and today itself on the
      anniversary. */
  lemma ThisYearOrder(b: CalDate, today: CalDate)
    ensures var occ := OccurrenceIn(b, today.year);
      && (MonthDayLess(today, b) ==> LexLess(today, occ))
      && (MonthDayLess(b, today) ==> LexLessEq(occ, today))
      && (SameMonthDay(b, today) ==> occ == today)
  {
  }

  /** The birth year plays no part in the count. */
  lemma DaysUntilThisYearIgnoresYear(b1: CalDate, b2: CalDate, today: CalDate)
    requires SameMonthDay(b1, b2)
    ensures DaysUntilThisYear(b1, today) == DaysUntilThisYear(b2, today)
  {
  }

  /** Where this year's occurrence is not yet past, the older count agrees with
      the client's; otherwise the client's has moved on a year and is larger. */
  lemma DaysUntilVariantsCompared(b: CalDate, today: CalDate)
    ensures DaysUntilThisYear(b, today) >= 0 ==> DaysUntil(Some(b), today) == Some(DaysUntilThisYear(b, today))
    ensures DaysUntilThisYear(b, today) < 0 ==> DaysUntil(Some(b), today).value > DaysUntilThisYear(b, today)
  {
  }
}
