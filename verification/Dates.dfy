/** Gregorian calendar arithmetic shared by both booking calendars.
    Months are 0-based, as in JavaScript's Date (0 = January, 11 = December),
    and weekdays follow Date.getDay (0 = Sunday, 1 = Monday, ..., 6 = Saturday). */
module Dates {

  /** A calendar day as the (year, month, day) triple a JavaScript Date is built from. */
  datatype Date = Date(year: int, month: int, day: int)

  /** A displayed month: the (currentYear, currentMonth) state of a calendar. */
  datatype YearMonth = YearMonth(year: int, month: int)

  predicate ValidMonth(m: int) {
    0 <= m < 12
  }

  predicate IsLeapYear(y: int) {
    y % 4 == 0 && (y % 100 != 0 || y % 400 == 0)
  }

  /** The day of the month that `new Date(y, m + 1, 0).getDate()` yields:
      day 0 of the following month is the last day of month `m`. */
  function DaysInMonth(y: int, m: int): (n: int)
    requires ValidMonth(m)
    ensures 28 <= n <= 31
    ensures n == 28 <==> m == 1 && !IsLeapYear(y)
    ensures n == 29 <==> m == 1 && IsLeapYear(y)
  {
    if m == 1 then (if IsLeapYear(y) then 29 else 28)
    else if m == 3 || m == 5 || m == 8 || m == 10 then 30
    else 31
  }

  /** A date that needs no normalisation: its day lies within its month. */
  predicate ValidDate(d: Date) {
    ValidMonth(d.month) && 1 <= d.day <= DaysInMonth(d.year, d.month)
  }

  /** Number of days from 1 January 1970 to the given day of the proleptic
      Gregorian calendar, computed with a year that starts in March, so that
      the leap day is the last day of that year. This closed form does not use
      DaysInMonth: the lemma DayAfterLastIsFirstOfNext connects the two. */
  function DaysFromCivil(y: int, m: int, d: int): int {
    var y' := if m < 2 then y - 1 else y;
    var fromMarch := (m + 10) % 12;
    var dayOfYear := (153 * fromMarch + 2) / 5 + d - 1;
    365 * y' + y' / 4 - y' / 100 + y' / 400 + dayOfYear - 719468
  }

  function DayNumber(d: Date): int {
    DaysFromCivil(d.year, d.month, d.day)
  }

  /** Date.getDay: 1 January 1970 was a Thursday (4). */
  function DayOfWeek(d: Date): (w: int)
    ensures 0 <= w < 7
  {
    (DayNumber(d) + 4) % 7
  }

  /** handleNextMonth: December rolls over to January of the following year. */
  function NextMonthOf(ym: YearMonth): (r: YearMonth)
    ensures MonthOrdinal(r) == MonthOrdinal(ym) + 1
    ensures ValidMonth(ym.month) ==> ValidMonth(r.month)
  {
    if ym.month == 11 then YearMonth(ym.year + 1, 0)
    else YearMonth(ym.year, ym.month + 1)
  }

  /** handlePrevMonth: January rolls back to December of the preceding year. */
  function PrevMonthOf(ym: YearMonth): (r: YearMonth)
    ensures MonthOrdinal(r) == MonthOrdinal(ym) - 1
    ensures ValidMonth(ym.month) ==> ValidMonth(r.month)
  {
    if ym.month == 0 then YearMonth(ym.year - 1, 11)
    else YearMonth(ym.year, ym.month - 1)
  }

  /** Months counted from January of year 0: a reference numbering of displayed months. */
  function MonthOrdinal(ym: YearMonth): int {
    12 * ym.year + ym.month
  }

  /** On valid months, the ordinal determines the month. */
  lemma MonthOrdinalInjective(a: YearMonth, b: YearMonth)
    requires ValidMonth(a.month) && ValidMonth(b.month)
    requires MonthOrdinal(a) == MonthOrdinal(b)
    ensures a == b
  {
  }

  /** Going back one month undoes going forward one month, and vice versa. */
  lemma {:induction false} NavigationRoundTrip(ym: YearMonth)
    requires ValidMonth(ym.month)
    ensures PrevMonthOf(NextMonthOf(ym)) == ym
    ensures NextMonthOf(PrevMonthOf(ym)) == ym
  {
    MonthOrdinalInjective(PrevMonthOf(NextMonthOf(ym)), ym);
    MonthOrdinalInjective(NextMonthOf(PrevMonthOf(ym)), ym);
  }

  /** Successive years start 365 days apart, or 366 when the first of them is a leap year. */
  lemma LeapDayCount(y: int)
    ensures y / 4 - (y - 1) / 4 - (y / 100 - (y - 1) / 100) + (y / 400 - (y - 1) / 400)
            == if IsLeapYear(y) then 1 else 0
  {
    assert y / 4 - (y - 1) / 4 == if y % 4 == 0 then 1 else 0;
    assert y / 100 - (y - 1) / 100 == if y % 100 == 0 then 1 else 0;
    assert y / 400 - (y - 1) / 400 == if y % 400 == 0 then 1 else 0;
    assert y % 400 == 0 ==> y % 100 == 0;
    assert y % 100 == 0 ==> y % 4 == 0;
  }

  /** The `new Date(y, m + 1, 0)` idiom: the day after the last day of month `m`
      is the 1st of the next month, so that month has DaysInMonth(y, m) days. */
  lemma {:induction false} DayAfterLastIsFirstOfNext(ym: YearMonth)
    requires ValidMonth(ym.month)
    ensures var n := NextMonthOf(ym);
            DaysFromCivil(n.year, n.month, 1) == DaysFromCivil(ym.year, ym.month, 1) + DaysInMonth(ym.year, ym.month)
  {
    if ym.month == 1 {
      LeapDayCount(ym.year);
    }
  }

  /** Consecutive calendar days have consecutive day numbers, also across a month end. */
  lemma {:induction false} NextDayNumber(d: Date)
    requires ValidDate(d)
    ensures d.day < DaysInMonth(d.year, d.month) ==>
              DayNumber(Date(d.year, d.month, d.day + 1)) == DayNumber(d) + 1
    ensures d.day == DaysInMonth(d.year, d.month) ==>
              var n := NextMonthOf(YearMonth(d.year, d.month));
              DayNumber(Date(n.year, n.month, 1)) == DayNumber(d) + 1
  {
    DayAfterLastIsFirstOfNext(YearMonth(d.year, d.month));
  }

  /** The weekday advances by one each day, also across a month end. */
  lemma {:induction false} NextDayWeekday(d: Date)
    requires ValidDate(d)
    ensures d.day < DaysInMonth(d.year, d.month) ==>
              DayOfWeek(Date(d.year, d.month, d.day + 1)) == (DayOfWeek(d) + 1) % 7
    ensures d.day == DaysInMonth(d.year, d.month) ==>
              var n := NextMonthOf(YearMonth(d.year, d.month));
              DayOfWeek(Date(n.year, n.month, 1)) == (DayOfWeek(d) + 1) % 7
  {
    NextDayNumber(d);
    WeekdayOfSuccessor(DayNumber(d));
  }

  lemma WeekdayOfSuccessor(n: int)
    ensures (n + 1 + 4) % 7 == ((n + 4) % 7 + 1) % 7
  {
  }

  /** Anchors of the weekday numbering: 1 January 1970 was a Thursday,
      1 May 2025 a Thursday and 1 June 2025 a Sunday. */
  lemma WeekdayAnchors()
    ensures DayNumber(Date(1970, 0, 1)) == 0
    ensures DayOfWeek(Date(1970, 0, 1)) == 4
    ensures DayNumber(Date(2025, 4, 1)) == 20209 && DayOfWeek(Date(2025, 4, 1)) == 4
    ensures DayNumber(Date(2025, 5, 1)) == 20240 && DayOfWeek(Date(2025, 5, 1)) == 0
  {
    assert DaysFromCivil(1970, 0, 1) == 365 * 1969 + 492 - 19 + 4 + 306 - 719468;
    assert DaysFromCivil(2025, 4, 1) == 365 * 2025 + 506 - 20 + 5 + 61 - 719468;
    assert DaysFromCivil(2025, 5, 1) == 365 * 2025 + 506 - 20 + 5 + 92 - 719468;
  }
}
