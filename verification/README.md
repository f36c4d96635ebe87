# Booking calendar of the Beth's Brows booking page

A Dafny model of the calendar arithmetic behind the booking page: the
Monday-first month grid of the `Calendar` component, the older
`FancyCalendar` with its flat list of days, month navigation with year
rollover, the booked-slot check that disables a time slot, and the session
state of `BookClient` (selected service, selected date, town and address
fields).

Dates are `(year, month, day)` triples with a 0-based month, exactly the
arguments the components pass to JavaScript's `Date` constructor. Weekdays use
`Date.getDay` numbering (0 = Sunday). The day count `DaysFromCivil` is a
closed-form proleptic Gregorian formula that does not use the month-length
table; lemmas tie the two together. That is how the model shows that
`new Date(y, m + 1, 0)` gives the length of month `m`, and that the grid is a
run of consecutive days whose columns are Monday to Sunday.

Modules:

- `Dates` (`Dates.dfy`): leap years, month lengths, day numbers, weekdays and the
  month navigation that both components share.
- `MonthGrid` (`MonthGrid.dfy`): the `calendarCells` grid of `Calendar`, as pure functions and lemmas.
- `Slots` (`Slots.dfy`): the eight hourly slot labels, `isBooked` and the slot buttons.
- `CalendarView` (`CalendarView.dfy`): class `Calendar`, which holds the displayed month, the selected
  date and the selected time.
- `Booking` (`Booking.dfy`): the service catalogue, the `dates` list, class `FancyCalendar` and class `BookClient`.
- `Wrappers` (`Wrappers.dfy`): `Option`. A selection that has not been made yet is `None`;
  the source uses the empty string for it.

The current date is a constructor parameter (`today`). The booked slots are a
map from dates to slot labels. This map is a field the components only read.

What the code does and does not do:

- No cell is checked against "today". Past days of the displayed month can be selected in both
  calendars, and there is no same-day lead-time rule.
- Choosing a new date in `Calendar` keeps the time chosen before. That time may be booked on the
  new date. `CalendarView.KeptTimeAfterDateChange` verifies such a run on April 2025.
- `FancyCalendar` has no disabled day buttons. Its slot buttons have no click handler,
  so `BookClient` has no selected time.
- Selecting a service stores the title of the service item clicked. Only
  items of the given list can be clicked, so no unknown title can arrive.
- There is no booking validator and no confirmation step in the code.

## Model

| member | source | states |
|---|---|---|
| Dates.DaysInMonth | app/book/Calendar.tsx:72-76 | month length is 28..31; 28 exactly for February of a common year, 29 exactly for February of a leap year (Gregorian rule: divisible by 4, centuries only when divisible by 400) |
| Dates.DayAfterLastIsFirstOfNext | app/book/BookClient.tsx:57 | the day-0-of-next-month idiom: the 1st of the next month is DaysInMonth days after the 1st of this month, by an independent day count; this covers December to January and the leap day |
| Dates.DayOfWeek | app/book/Calendar.tsx:62-66 | getDay of a date is a weekday 0..6, with 0 as Sunday |
| Dates.WeekdayAnchors | app/book/Calendar.tsx:63 | day 0 of the count is 1 January 1970, a Thursday (4); 1 May 2025 is a Thursday and 1 June 2025 a Sunday |
| Dates.NextDayNumber | app/book/Calendar.tsx:94-105 | the next calendar day has the next day number, within a month and from a month's last day to the 1st of the next month |
| Dates.NextDayWeekday | app/book/Calendar.tsx:62-66 | the weekday advances by one modulo 7 from each day to the next, also across a month end |
| Dates.NextMonthOf | app/book/Calendar.tsx:53-60 | next month has month ordinal + 1; from a valid month it gives a valid month 0..11 (December to January of year + 1) |
| Dates.PrevMonthOf | app/book/Calendar.tsx:44-51 | previous month has month ordinal - 1; from a valid month it gives a valid month 0..11 (January to December of year - 1) |
| Dates.NavigationRoundTrip | app/book/Calendar.tsx:44-60 | previous after next, and next after previous, give back the original (year, month) |
| MonthGrid.StartDay | app/book/Calendar.tsx:65-67 | startDay is 1..7 and equals getDay of the 1st modulo 7 (Sunday becomes 7) |
| MonthGrid.PrevMonthDaysToShow | app/book/Calendar.tsx:68-69 | leading cell count is 0..6, the 1st falls `lead` days after a Monday, and it is 6 exactly when the 1st is a Sunday |
| MonthGrid.TotalCells | app/book/Calendar.tsx:78-80 | total is a multiple of 7, at least lead + days and less than lead + days + 7 |
| MonthGrid.DaysInPrevMonth | app/book/Calendar.tsx:83-85 | the previous month (PrevMonthOf) has 28..31 days, exactly the days from its 1st to the 1st of the displayed month |
| MonthGrid.CellAt | app/book/Calendar.tsx:89-107 | the cell at index i shows its date's day (at least 1); it is in the displayed month exactly for i in [lead, lead + days); below lead its date lies in the previous month and is at most that month's last day, from lead + days on it lies in the next month |
| MonthGrid.CalendarCells | app/book/Calendar.tsx:88-113 | the grid is a positive multiple of 7 long, holds every leading and current-month cell and has fewer than 7 trailing cells |
| MonthGrid.CurrentMonthCells | app/book/Calendar.tsx:96-99 | a cell is in the displayed month exactly when its index is in [lead, lead + days), and then it is day index - lead + 1 of the displayed month |
| MonthGrid.InMonthCountOfRange | app/book/Calendar.tsx:90-107 | a cell sequence whose in-month cells are exactly those at indices [a, b) has b - a of them |
| MonthGrid.InMonthCountIsDaysInMonth | app/book/Calendar.tsx:88-107 | exactly DaysInMonth cells of the grid belong to the displayed month |
| MonthGrid.LeadingCells | app/book/Calendar.tsx:83-95 | leading cells are outside the month, in the previous month (December of year - 1 for January), numbered so that the last one is that month's last day, in ascending order |
| MonthGrid.TrailingCells | app/book/Calendar.tsx:100-106 | trailing cells are outside the month, in the next month (January of year + 1 for December), numbered 1, 2, ... up to at most 6 |
| MonthGrid.CellIsConsecutiveDay | app/book/Calendar.tsx:88-112 | every cell is a real date (its day needs no normalisation, so getDate is the day shown), and cell i is i - lead days after the 1st of the month |
| MonthGrid.ColumnsAreWeekdays | app/book/Calendar.tsx:62-69 | weeks start on Monday: cell i falls on weekday (i mod 7 + 1) mod 7, so column 0 is Monday and column 6 Sunday |
| Slots.HourLabel | app/book/Calendar.tsx:115-124 | the label of hour h is five characters "HH:00" whose first two characters are the decimal digits of h |
| Slots.TimeSlotsAreHourly | app/book/BookClient.tsx:64-73 | timeSlots has 8 labels, entry k being the label of hour 9 + k (09:00 .. 16:00) |
| Slots.TimeSlotsDistinct | app/book/Calendar.tsx:115-124 | no slot label occurs twice |
| Slots.SlotButtons | app/book/BookClient.tsx:114-119 | one slot button per label, in the order of timeSlots |
| Slots.IsBooked | app/book/Calendar.tsx:181 | a slot is booked exactly when the date has an entry that lists the slot's label; a date without an entry has nothing booked |
| Slots.SlotDisabledIffListed | app/book/Calendar.tsx:181-185 | a slot button is disabled exactly when its label is listed for the date; a date without an entry has every slot enabled |
| Slots.EnabledSlotsAreUnbooked | app/book/BookClient.tsx:115-119 | the enabled buttons' labels are exactly the offered labels not listed for the date |
| CalendarView.Calendar.constructor | app/book/Calendar.tsx:20-28 | opens on the month of today's UK date, with nothing selected |
| CalendarView.Calendar.HandlePrevMonth | app/book/Calendar.tsx:44-51 | displayed month becomes PrevMonthOf the old one, stays valid, and changes nothing else |
| CalendarView.Calendar.HandleNextMonth | app/book/Calendar.tsx:53-60 | displayed month becomes NextMonthOf the old one, stays valid, and changes nothing else |
| CalendarView.Calendar.ClickCell | app/book/Calendar.tsx:157-161 | a click is accepted exactly on a cell of the displayed month and then selects its date, a real date of that month; a disabled cell leaves the selection unchanged; nothing else changes |
| CalendarView.Calendar.ClickTimeSlot | app/book/Calendar.tsx:180-190 | the selected time changes, to the clicked label, exactly when a date is selected and the label is not listed for it; otherwise nothing changes |
| Booking.CatalogueTitles | app/book/page.tsx:12-23 | catalogue titles are pairwise distinct and include the initial selection "Brow Tint" |
| Booking.InitialBookingsDisableListedSlots | app/book/BookClient.tsx:140-143 | with the page's bookings, 10:00 and 14:00 are disabled on 5 April 2025, 09:00 and 13:00 on 10 April, and nothing on a date without an entry |
| Booking.MonthDates | app/book/BookClient.tsx:57-63 | dates has exactly DaysInMonth entries and entry i has day i + 1 |
| Booking.MonthDatesMatchGrid | app/book/BookClient.tsx:58-63 | entry i of dates is the same day and date as the grid's (lead + i)-th cell, which is in the month, and it is a real date of the displayed month |
| Booking.FancyCalendar.constructor | app/book/BookClient.tsx:25-26 | opens on the month of the host's current date |
| Booking.FancyCalendar.HandlePrevMonth | app/book/BookClient.tsx:41-48 | displayed month becomes PrevMonthOf the old one and stays valid |
| Booking.FancyCalendar.HandleNextMonth | app/book/BookClient.tsx:49-56 | displayed month becomes NextMonthOf the old one and stays valid |
| Booking.BookClient.constructor | app/book/BookClient.tsx:137-147 | initial state: service "Brow Tint", no date, town "Hereford", empty address lines and postcode, the two sample bookings |
| Booking.BookClient.SelectService | app/book/BookClient.tsx:194-201 | the selected service becomes the clicked item's title; no other field changes |
| Booking.BookClient.SelectCity | app/book/BookClient.tsx:211-226 | the town becomes the clicked one of the two; no other field changes |
| Booking.BookClient.SetFirstLineAddress | app/book/BookClient.tsx:231-237 | the first address line becomes the typed value; no other field changes |
| Booking.BookClient.SetSecondLineAddress | app/book/BookClient.tsx:238-244 | the second address line becomes the typed value; no other field changes |
| Booking.BookClient.SetPostcode | app/book/BookClient.tsx:251-257 | the postcode becomes the typed value; no other field changes |
| Booking.BookClient.ClickDate | app/book/BookClient.tsx:94-97 | the selected date becomes the clicked day's date, a real date of the displayed month; only the date changes |
| Booking.BookClient.NavigateMonth | app/book/BookClient.tsx:41-56 | navigation moves the calendar's month one step either way and leaves the selected date, service, town and address fields unchanged |

## Left out

- Timezone and locale conversion are not modelled: the UK-time parse of the current date
  (app/book/Calendar.tsx:20-25), `toLocaleDateString("en-CA")` (app/book/Calendar.tsx:109-111) and
  `toISOString()` (app/book/BookClient.tsx:61). The current date is a parameter. The date string of a
  cell or a day button is modelled by the date triple itself, which a `YYYY-MM-DD` string
  represents one to one. A consequence this leaves out: `toISOString` of local midnight on a host
  east of UTC (London in summer time, for one) names the previous day, so `FancyCalendar`'s date
  strings would be shifted by one day there, and the sample bookings of
  app/book/BookClient.tsx:140-143 would show on the button of the next day. Likewise
  `toLocaleDateString("en-CA", {timeZone: "Europe/London"})` of a local-midnight `Date` names the
  previous day on any host east of London (continental Europe, for one), so `Calendar`'s date
  strings would be shifted there too.
- The JavaScript `Date` constructor's mapping of years 0..99 to 1900..1999 and its range limit are
  not modelled. Every integer year is a proleptic Gregorian year.
- `Math.ceil` works on a floating-point quotient. The model uses the integer ceiling, which equals it
  for these small non-negative values.
- React state hooks and re-rendering are not modelled. Each component's state is a class, and each
  setter is a method. `Calendar`'s `selectedDate`, `selectedTime` and `bookedTimes` are props of a
  parent that is not part of this model, so they are fields of the `Calendar` class, with nothing
  selected at the start.
- JSX, CSS class strings, the `monthNames` and `weekDays` labels and the rendering of `ServiceItem`
  are display only. The town's read-only input is display only too.
- app/Navbar.tsx is not part of this model. It is a menu toggle with a DOM side effect.
- app/book/page.tsx supplies only the constant catalogue (`Booking.Catalogue`).
