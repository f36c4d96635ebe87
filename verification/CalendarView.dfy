/** The Calendar component: the displayed month with its navigation, the
    selectable grid cells and the time slots of the selected date. */
module CalendarView {
  import opened Wrappers
  import opened Dates
  import opened MonthGrid
  import opened Slots

  class Calendar {
    /** The displayed month (0-based month). */
    var currentYear: int
    var currentMonth: int
    /** The selection the component reports to its parent. */
    var selectedDate: Option<Date>
    var selectedTime: Option<string>
    /** Existing bookings, read-only for the component. */
    const bookedTimes: BookedTimes

    ghost predicate Valid()
      reads this
    {
      ValidMonth(currentMonth)
    }

    function Displayed(): YearMonth
      reads this
    {
      YearMonth(currentYear, currentMonth)
    }

    /** Opens on the month that contains `today`, the current date in UK time. */
    constructor (today: Date, booked: BookedTimes)
      requires ValidDate(today)
      ensures Valid()
      ensures Displayed() == YearMonth(today.year, today.month)
      ensures selectedDate == None && selectedTime == None
      ensures bookedTimes == booked
    {
      currentYear := today.year;
      currentMonth := today.month;
      selectedDate := None;
      selectedTime := None;
      bookedTimes := booked;
    }

    /** The "<" button: one month back, from January to December of the year
        before; the selection is left as it is. */
    method HandlePrevMonth()
      requires Valid()
      modifies this`currentYear, this`currentMonth
      ensures Valid()
      ensures Displayed() == PrevMonthOf(old(Displayed()))
      ensures MonthOrdinal(Displayed()) == MonthOrdinal(old(Displayed())) - 1
    {
      if currentMonth == 0 {
        currentMonth := 11;
        currentYear := currentYear - 1;
      } else {
        currentMonth := currentMonth - 1;
      }
    }

    /** The ">" button: one month forward, from December to January of the
        year after; the selection is left as it is. */
    method HandleNextMonth()
      requires Valid()
      modifies this`currentYear, this`currentMonth
      ensures Valid()
      ensures Displayed() == NextMonthOf(old(Displayed()))
      ensures MonthOrdinal(Displayed()) == MonthOrdinal(old(Displayed())) + 1
    {
      if currentMonth == 11 {
        currentMonth := 0;
        currentYear := currentYear + 1;
      } else {
        currentMonth := currentMonth + 1;
      }
    }

    /** The grid rendered for the displayed month. */
    function Cells(): seq<Cell>
      reads this
      requires Valid()
    {
      CalendarCells(Displayed())
    }

    /** A click on grid cell `i`. Cells outside the displayed month are
        disabled and ignore the click; a cell of the displayed month selects
        its date, which is then a real date of the displayed month. The
        selected time is left as it is. */
    method ClickCell(i: nat) returns (accepted: bool)
      requires Valid()
      requires i < |Cells()|
      modifies this`selectedDate
      ensures accepted == Cells()[i].isCurrentMonth
      ensures selectedDate == if accepted then Some(Cells()[i].date) else old(selectedDate)
      ensures accepted ==> ValidDate(selectedDate.value) &&
                           selectedDate.value.year == currentYear &&
                           selectedDate.value.month == currentMonth
    {
      var cell := Cells()[i];
      CurrentMonthCells(Displayed(), i);
      CellIsConsecutiveDay(Displayed(), i);
      accepted := cell.isCurrentMonth;
      if accepted {
        selectedDate := Some(cell.date);
      }
    }

    /** The slot buttons, shown once a date is selected. */
    function SlotList(): seq<SlotButton>
      reads this
      requires selectedDate.Some?
    {
      SlotButtons(bookedTimes, selectedDate.value)
    }

    /** A click on slot button `k`. The buttons exist only while a date is
        selected; a booked slot ignores the click, a free one becomes the
        selected time. */
    method ClickTimeSlot(k: nat) returns (accepted: bool)
      requires k < |TimeSlots|
      modifies this`selectedTime
      ensures accepted <==> selectedDate.Some? && !IsBooked(bookedTimes, selectedDate.value, TimeSlots[k])
      ensures selectedTime == if accepted then Some(TimeSlots[k]) else old(selectedTime)
      ensures accepted ==> !(selectedDate.value in bookedTimes && selectedTime.value in bookedTimes[selectedDate.value])
    {
      accepted := false;
      if selectedDate.Some? {
        var button := SlotButtons(bookedTimes, selectedDate.value)[k];
        if !button.disabled {
          selectedTime := Some(button.time);
          accepted := true;
        }
      }
    }
  }

  /** Picking a date keeps the time picked for an earlier date, even when that
      time is booked on the new date: on a calendar opened on April 2025 with
      10:00 booked on 5 April, choosing 4 April, then 10:00, then 5 April
      leaves 10:00 selected. */
  method KeptTimeAfterDateChange()
  {
    var booked: BookedTimes := map[Date(2025, 3, 5) := ["10:00", "14:00"]];
    var c := new Calendar(Date(2025, 3, 1), booked);
    assert DaysFromCivil(2025, 3, 1) == 365 * 2025 + 506 - 20 + 5 + 31 - 719468;
    assert DayOfWeek(Date(2025, 3, 1)) == 2;
    assert PrevMonthDaysToShow(c.Displayed()) == 1;
    CurrentMonthCells(c.Displayed(), 4);
    CurrentMonthCells(c.Displayed(), 5);
    var ok := c.ClickCell(4);
    assert ok && c.selectedDate == Some(Date(2025, 3, 4));
    ok := c.ClickTimeSlot(1);
    assert ok && c.selectedTime == Some("10:00");
    ok := c.ClickCell(5);
    assert ok && c.selectedDate == Some(Date(2025, 3, 5));
    assert c.selectedTime == Some("10:00") && IsBooked(c.bookedTimes, Date(2025, 3, 5), "10:00");
  }
}
