/** The booking page: the FancyCalendar component (month navigation, the flat
    list of the month's days, slot buttons) and the BookClient session state
    (selected service, selected date, city and address fields). */
module Booking {
  import opened Wrappers
  import opened Dates
  import opened MonthGrid
  import opened Slots

  /** A bookable service of the catalogue. */
  datatype Service = Service(title: string, desc: Option<string>, price: int, duration: int)

  /** The catalogue the booking page is given. */
  function Catalogue(): seq<Service> {
    [ Service("Brow Tint", None, 5, 60),
      Service("Eyelash Tint", None, 5, 60),
      Service("Brow Wax", None, 8, 60),
      Service("Brow&Lash Tint", None, 9, 60),
      Service("Full Service", Some("Brow Wax, Brow Tint, and Eyelash Tint"), 16, 60) ]
  }

  /** The service selected before the customer picks one. */
  const InitialService: string := "Brow Tint"

  /** The two towns offered as the location, the first being the initial one. */
  const Cities: seq<string> := ["Hereford", "Presteigne"]

  /** Titles identify services: no two catalogue entries share one, and the
      initial selection is a catalogue title. */
  lemma CatalogueTitles()
    ensures forall j, k :: 0 <= j < |Catalogue()| && 0 <= k < |Catalogue()| ==>
              (Catalogue()[j].title == Catalogue()[k].title <==> j == k)
    ensures exists k :: 0 <= k < |Catalogue()| && Catalogue()[k].title == InitialService
  {
    assert Catalogue()[0].title == InitialService;
  }

  /** The bookings the page starts with (dates 5 and 10 April 2025). */
  function InitialBookedTimes(): BookedTimes {
    map[Date(2025, 3, 5) := ["10:00", "14:00"], Date(2025, 3, 10) := ["09:00", "13:00"]]
  }

  /** On 5 April 2025 the 10:00 and 14:00 buttons are disabled and the other six
      enabled; on 10 April the 09:00 and 13:00 ones; a date without bookings,
      such as 6 April, has all eight enabled. */
  lemma InitialBookingsDisableListedSlots(k: nat)
    requires k < |TimeSlots|
    ensures SlotButtons(InitialBookedTimes(), Date(2025, 3, 5))[k].disabled <==> k == 1 || k == 5
    ensures SlotButtons(InitialBookedTimes(), Date(2025, 3, 10))[k].disabled <==> k == 0 || k == 4
    ensures !SlotButtons(InitialBookedTimes(), Date(2025, 3, 6))[k].disabled
  {
  }

  /** One day button of FancyCalendar: the day number and the date it selects. */
  datatype DateEntry = DateEntry(day: int, date: Date)

  /** The dates list: one entry per day of the month, entry i being day i + 1. */
  function MonthDates(ym: YearMonth): (dates: seq<DateEntry>)
    requires ValidMonth(ym.month)
    ensures |dates| == DaysInMonth(ym.year, ym.month)
    ensures forall i :: 0 <= i < |dates| ==> dates[i].day == i + 1
  {
    seq(DaysInMonth(ym.year, ym.month), i requires 0 <= i < DaysInMonth(ym.year, ym.month) =>
      DateEntry(i + 1, Date(ym.year, ym.month, i + 1)))
  }

  /** The older calendar offers the same days as the Monday-first grid: entry i
      of the dates list is the grid's (lead + i)-th cell, the i-th cell of the
      displayed month, and names a real date of that month. */
  lemma {:induction false} MonthDatesMatchGrid(ym: YearMonth, i: nat)
    requires ValidMonth(ym.month)
    requires i < |MonthDates(ym)|
    ensures var lead := PrevMonthDaysToShow(ym);
            lead + i < |CalendarCells(ym)| &&
            CalendarCells(ym)[lead + i].isCurrentMonth &&
            CalendarCells(ym)[lead + i].day == MonthDates(ym)[i].day &&
            CalendarCells(ym)[lead + i].date == MonthDates(ym)[i].date
    ensures ValidDate(MonthDates(ym)[i].date) &&
            MonthDates(ym)[i].date.year == ym.year && MonthDates(ym)[i].date.month == ym.month
  {
    CurrentMonthCells(ym, PrevMonthDaysToShow(ym) + i);
  }

  /** The FancyCalendar component's own state: the displayed month. */
  class FancyCalendar {
    var currentYear: int
    var currentMonth: int

    ghost predicate Valid()
      reads this
    {
      ValidMonth(currentMonth)
    }

    function Displayed(): YearMonth
      reads this
    {
      YearMonth(currentYear, currentMonth)
    }

    /** Opens on the month that contains `today`, the host's current date. */
    constructor (today: Date)
      requires ValidDate(today)
      ensures Valid() && Displayed() == YearMonth(today.year, today.month)
    {
      currentYear := today.year;
      currentMonth := today.month;
    }

    method HandlePrevMonth()
      requires Valid()
      modifies this
      ensures Valid()
      ensures Displayed() == PrevMonthOf(old(Displayed()))
      ensures MonthOrdinal(Displayed()) == MonthOrdinal(old(Displayed())) - 1
    {
      if currentMonth == 0 {
        currentMonth := 11;
        currentYear := currentYear - 1;
      } else {
        currentMonth := currentMonth - 1;
      }
    }

    method HandleNextMonth()
      requires Valid()
      modifies this
      ensures Valid()
      ensures Displayed() == NextMonthOf(old(Displayed()))
      ensures MonthOrdinal(Displayed()) == MonthOrdinal(old(Displayed())) + 1
    {
      if currentMonth == 11 {
        currentMonth := 0;
        currentYear := currentYear + 1;
      } else {
        currentMonth := currentMonth + 1;
      }
    }

    /** The day buttons of the displayed month. */
    function DayButtons(): seq<DateEntry>
      reads this
      requires Valid()
    {
      MonthDates(Displayed())
    }
  }

  /** The booking page's session state. */
  class BookClient {
    var selectedService: string
    var selectedDate: Option<Date>
    var selectedCity: string
    var firstLineAddress: string
    var secondLineAddress: string
    var postcode: string
    const bookedTimes: BookedTimes
    const services: seq<Service>
    /** The child calendar, which owns the displayed month. */
    const calendar: FancyCalendar

    ghost predicate Valid()
      reads this, calendar
    {
      calendar.Valid()
    }

    constructor (catalogue: seq<Service>, today: Date)
      requires ValidDate(today)
      ensures Valid() && fresh(calendar)
      ensures calendar.Displayed() == YearMonth(today.year, today.month)
      ensures selectedService == InitialService
      ensures selectedDate == None
      ensures selectedCity == Cities[0]
      ensures firstLineAddress == "" && secondLineAddress == "" && postcode == ""
      ensures bookedTimes == InitialBookedTimes() && services == catalogue
    {
      selectedService := InitialService;
      selectedDate := None;
      selectedCity := Cities[0];
      firstLineAddress := "";
      secondLineAddress := "";
      postcode := "";
      bookedTimes := InitialBookedTimes();
      services := catalogue;
      calendar := new FancyCalendar(today);
    }

    /** A click on service `k` of the list selects that service's title and
        changes nothing else. */
    method SelectService(k: nat)
      requires k < |services|
      modifies this`selectedService
      ensures selectedService == services[k].title
    {
      selectedService := services[k].title;
    }

    /** A click on one of the two town buttons. */
    method SelectCity(k: nat)
      requires k < |Cities|
      modifies this`selectedCity
      ensures selectedCity == Cities[k]
    {
      selectedCity := Cities[k];
    }

    method SetFirstLineAddress(value: string)
      modifies this`firstLineAddress
      ensures firstLineAddress == value
    {
      firstLineAddress := value;
    }

    method SetSecondLineAddress(value: string)
      modifies this`secondLineAddress
      ensures secondLineAddress == value
    {
      secondLineAddress := value;
    }

    method SetPostcode(value: string)
      modifies this`postcode
      ensures postcode == value
    {
      postcode := value;
    }

    /** A click on day button `i` of the calendar: every day of the displayed
        month can be selected. */
    method ClickDate(i: nat)
      requires Valid()
      requires i < |calendar.DayButtons()|
      modifies this`selectedDate
      ensures selectedDate == Some(calendar.DayButtons()[i].date)
      ensures ValidDate(selectedDate.value)
      ensures selectedDate.value.year == calendar.currentYear && selectedDate.value.month == calendar.currentMonth
    {
      MonthDatesMatchGrid(calendar.Displayed(), i);
      selectedDate := Some(calendar.DayButtons()[i].date);
    }

    /** Month navigation goes through the calendar, which changes only its
        displayed month: the selected date and every other field stay. */
    method NavigateMonth(forward: bool)
      requires Valid()
      modifies calendar
      ensures Valid()
      ensures calendar.Displayed() ==
                if forward then NextMonthOf(old(calendar.Displayed())) else PrevMonthOf(old(calendar.Displayed()))
      ensures selectedDate == old(selectedDate) && selectedService == old(selectedService)
      ensures selectedCity == old(selectedCity) && firstLineAddress == old(firstLineAddress)
      ensures secondLineAddress == old(secondLineAddress) && postcode == old(postcode)
    {
      if forward {
        calendar.HandleNextMonth();
      } else {
        calendar.HandlePrevMonth();
      }
    }

    /** The slot buttons, shown once a date is selected; booked slots are
        disabled and these buttons select nothing. */
    function SlotList(): seq<SlotButton>
      reads this
      requires selectedDate.Some?
    {
      SlotButtons(bookedTimes, selectedDate.value)
    }
  }
}
