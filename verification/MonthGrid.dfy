/** The Monday-first month grid of the booking Calendar: whole weeks made of the
    tail of the previous month, every day of the displayed month, and the head
    of the next month. */
module MonthGrid {
  import opened Dates

  /** One button of the grid: the day number shown, the date it selects and
      whether it belongs to the displayed month (only those are enabled). */
  datatype Cell = Cell(day: int, date: Date, isCurrentMonth: bool)

  /** Weekday of the 1st with Sunday moved from 0 to 7, so Monday = 1 ... Sunday = 7. */
  function StartDay(ym: YearMonth): (s: int)
    ensures 1 <= s <= 7
    ensures s % 7 == DayOfWeek(Date(ym.year, ym.month, 1))
  {
    var w := DayOfWeek(Date(ym.year, ym.month, 1));
    if w == 0 then 7 else w
  }

  /** How many cells of the previous month precede the 1st: the number of days
      from the Monday that starts the 1st's week to the 1st itself. */
  function PrevMonthDaysToShow(ym: YearMonth): (lead: nat)
    ensures lead <= 6
    ensures (1 + lead) % 7 == DayOfWeek(Date(ym.year, ym.month, 1))
    ensures lead == 6 <==> DayOfWeek(Date(ym.year, ym.month, 1)) == 0
  {
    StartDay(ym) - 1
  }

  /** `Math.ceil((lead + days) / 7) * 7`: the smallest whole number of weeks
      that holds every leading and every current-month cell. */
  function TotalCells(lead: nat, days: nat): (total: nat)
    ensures total % 7 == 0
    ensures lead + days <= total < lead + days + 7
  {
    (lead + days + 6) / 7 * 7
  }

  /** `new Date(prevYear, prevMonth + 1, 0).getDate()`: the previous month's
      length, the number of days from its 1st to the 1st of the displayed month. */
  function DaysInPrevMonth(ym: YearMonth): (n: int)
    requires ValidMonth(ym.month)
    ensures 28 <= n <= 31
    ensures var p := PrevMonthOf(ym);
            DaysFromCivil(ym.year, ym.month, 1) == DaysFromCivil(p.year, p.month, 1) + n
  {
    var p := PrevMonthOf(ym);
    NavigationRoundTrip(ym);
    DayAfterLastIsFirstOfNext(p);
    DaysInMonth(p.year, p.month)
  }

  /** The cell at index `i`, by the three index ranges of the grid. */
  function CellAt(ym: YearMonth, i: nat): (c: Cell)
    requires ValidMonth(ym.month)
    ensures c.day == c.date.day && 1 <= c.day
    ensures c.isCurrentMonth <==> PrevMonthDaysToShow(ym) <= i < PrevMonthDaysToShow(ym) + DaysInMonth(ym.year, ym.month)
    ensures i < PrevMonthDaysToShow(ym) ==>
              YearMonth(c.date.year, c.date.month) == PrevMonthOf(ym) && c.day <= DaysInPrevMonth(ym)
    ensures c.isCurrentMonth ==> c.date.year == ym.year && c.date.month == ym.month
    ensures PrevMonthDaysToShow(ym) + DaysInMonth(ym.year, ym.month) <= i ==>
              YearMonth(c.date.year, c.date.month) == NextMonthOf(ym)
  {
    var lead := PrevMonthDaysToShow(ym);
    var days := DaysInMonth(ym.year, ym.month);
    if i < lead then
      var p := PrevMonthOf(ym);
      var dayNum := DaysInPrevMonth(ym) - lead + i + 1;
      Cell(dayNum, Date(p.year, p.month, dayNum), false)
    else if i < lead + days then
      var dayNum := i - lead + 1;
      Cell(dayNum, Date(ym.year, ym.month, dayNum), true)
    else
      var n := NextMonthOf(ym);
      var dayNum := i - (lead + days) + 1;
      Cell(dayNum, Date(n.year, n.month, dayNum), false)
  }

  /** The calendarCells array for the displayed month. */
  function CalendarCells(ym: YearMonth): (cells: seq<Cell>)
    requires ValidMonth(ym.month)
    ensures |cells| > 0 && |cells| % 7 == 0
    ensures PrevMonthDaysToShow(ym) + DaysInMonth(ym.year, ym.month) <= |cells|
    ensures |cells| < PrevMonthDaysToShow(ym) + DaysInMonth(ym.year, ym.month) + 7
  {
    var total := TotalCells(PrevMonthDaysToShow(ym), DaysInMonth(ym.year, ym.month));
    seq(total, i requires 0 <= i < total => CellAt(ym, i))
  }

  /** Number of cells that belong to the displayed month. */
  function InMonthCount(cells: seq<Cell>): nat {
    if cells == [] then 0
    else (if cells[0].isCurrentMonth then 1 else 0) + InMonthCount(cells[1..])
  }

  /** A sequence whose flagged cells are exactly those at indices [a, b) has b - a of them. */
  lemma {:induction false} InMonthCountOfRange(cells: seq<Cell>, a: nat, b: nat)
    requires a <= b <= |cells|
    requires forall i :: 0 <= i < |cells| ==> (cells[i].isCurrentMonth <==> a <= i < b)
    ensures InMonthCount(cells) == b - a
  {
    if cells != [] {
      var rest := cells[1..];
      if a > 0 {
        assert !cells[0].isCurrentMonth;
        InMonthCountOfRange(rest, a - 1, b - 1);
      } else if b > 0 {
        assert cells[0].isCurrentMonth;
        InMonthCountOfRange(rest, 0, b - 1);
      } else {
        InMonthCountOfRange(rest, 0, 0);
      }
    }
  }

  /** Cells [lead, lead + days) are the displayed month's days 1..days in order;
      every other cell is outside the displayed month. */
  lemma CurrentMonthCells(ym: YearMonth, i: nat)
    requires ValidMonth(ym.month)
    requires i < |CalendarCells(ym)|
    ensures var lead := PrevMonthDaysToShow(ym);
            var c := CalendarCells(ym)[i];
            (c.isCurrentMonth <==> lead <= i < lead + DaysInMonth(ym.year, ym.month)) &&
            (c.isCurrentMonth ==> c.day == i - lead + 1 && c.date == Date(ym.year, ym.month, c.day))
  {
  }

  /** Exactly DaysInMonth cells of the grid belong to the displayed month. */
  lemma {:induction false} InMonthCountIsDaysInMonth(ym: YearMonth)
    requires ValidMonth(ym.month)
    ensures InMonthCount(CalendarCells(ym)) == DaysInMonth(ym.year, ym.month)
  {
    var cells := CalendarCells(ym);
    var lead := PrevMonthDaysToShow(ym);
    forall i | 0 <= i < |cells|
      ensures cells[i].isCurrentMonth <==> lead <= i < lead + DaysInMonth(ym.year, ym.month)
    {
      CurrentMonthCells(ym, i);
    }
    InMonthCountOfRange(cells, lead, lead + DaysInMonth(ym.year, ym.month));
  }

  /** The leading cells are the last `lead` days of the previous month in ascending
      order, ending with its last day; the previous month of January is December
      of the year before. */
  lemma LeadingCells(ym: YearMonth, i: nat)
    requires ValidMonth(ym.month)
    requires i < PrevMonthDaysToShow(ym)
    ensures i < |CalendarCells(ym)|
    ensures var c := CalendarCells(ym)[i];
            var p := PrevMonthOf(ym);
            var lead := PrevMonthDaysToShow(ym);
            !c.isCurrentMonth &&
            c.date == Date(p.year, p.month, c.day) &&
            c.day == DaysInMonth(p.year, p.month) - (lead - 1 - i)
    ensures ym.month == 0 ==> PrevMonthOf(ym) == YearMonth(ym.year - 1, 11)
  {
  }

  /** The trailing cells are days 1, 2, ... of the next month; the next month of
      December is January of the year after. */
  lemma TrailingCells(ym: YearMonth, i: nat)
    requires ValidMonth(ym.month)
    requires PrevMonthDaysToShow(ym) + DaysInMonth(ym.year, ym.month) <= i < |CalendarCells(ym)|
    ensures var c := CalendarCells(ym)[i];
            var n := NextMonthOf(ym);
            !c.isCurrentMonth &&
            c.date == Date(n.year, n.month, c.day) &&
            c.day == i - (PrevMonthDaysToShow(ym) + DaysInMonth(ym.year, ym.month)) + 1 &&
            1 <= c.day <= 6
    ensures ym.month == 11 ==> NextMonthOf(ym) == YearMonth(ym.year + 1, 0)
  {
  }

  /** Every cell names a real date (no day overflows its month, so the JavaScript
      Date built from it is not normalised), the day shown is that date's day,
      and the cells are consecutive days: cell i is `i - lead` days after the 1st. */
  lemma {:induction false} CellIsConsecutiveDay(ym: YearMonth, i: nat)
    requires ValidMonth(ym.month)
    requires i < |CalendarCells(ym)|
    ensures var c := CalendarCells(ym)[i];
            ValidDate(c.date) && c.day == c.date.day &&
            DayNumber(c.date) == DayNumber(Date(ym.year, ym.month, 1)) - PrevMonthDaysToShow(ym) + i
  {
    var lead := PrevMonthDaysToShow(ym);
    var days := DaysInMonth(ym.year, ym.month);
    if i < lead {
      var p := PrevMonthOf(ym);
      NavigationRoundTrip(ym);
      DayAfterLastIsFirstOfNext(p);
    } else if i >= lead + days {
      DayAfterLastIsFirstOfNext(ym);
    }
  }

  /** Weeks start on Monday: the cell in column k (k = 0 .. 6) falls on weekday
      (k + 1) % 7 in Date.getDay numbering, so column 6 is always a Sunday. */
  lemma {:induction false} ColumnsAreWeekdays(ym: YearMonth, i: nat)
    requires ValidMonth(ym.month)
    requires i < |CalendarCells(ym)|
    ensures DayOfWeek(CalendarCells(ym)[i].date) == (i % 7 + 1) % 7
  {
    CellIsConsecutiveDay(ym, i);
    WeekdayOfOffset(DayNumber(Date(ym.year, ym.month, 1)), PrevMonthDaysToShow(ym), i);
  }

  /** If the 1st falls on weekday (1 + lead) % 7, then the day `i - lead` days
      after it falls on weekday (i + 1) % 7. */
  lemma WeekdayOfOffset(first: int, lead: nat, i: nat)
    requires (1 + lead) % 7 == (first + 4) % 7
    ensures (first - lead + i + 4) % 7 == (i % 7 + 1) % 7
  {
  }
}
