/** The hourly time slots offered each day and the booked-slot check that
    disables a slot button. */
module Slots {
  import opened Dates

  /** The timeSlots list: hourly labels from 09:00 to 16:00. */
  const TimeSlots: seq<string> :=
    ["09:00", "10:00", "11:00", "12:00", "13:00", "14:00", "15:00", "16:00"]

  /** Existing bookings: the slot labels already taken on each date. A date
      without an entry has no bookings. */
  type BookedTimes = map<Date, seq<string>>

  function Digit(n: nat): (c: char)
    requires n < 10
    ensures '0' <= c <= '9'
  {
    (48 + n) as char
  }

  /** The "HH:00" label of an hour of the day. */
  function HourLabel(h: nat): (s: string)
    requires h < 24
    ensures |s| == 5 && s[2] == ':' && s[3..] == "00"
    ensures '0' <= s[0] <= '9' && '0' <= s[1] <= '9'
    ensures 10 * (s[0] as int - '0' as int) + (s[1] as int - '0' as int) == h
  {
    [Digit(h / 10), Digit(h % 10), ':', '0', '0']
  }

  lemma HourLabelInjective(a: nat, b: nat)
    requires a < 24 && b < 24
    requires HourLabel(a) == HourLabel(b)
    ensures a == b
  {
    assert HourLabel(a)[0] == HourLabel(b)[0] && HourLabel(a)[1] == HourLabel(b)[1];
  }

  /** The slot list is eight consecutive hours starting at nine. */
  lemma TimeSlotsAreHourly()
    ensures |TimeSlots| == 8
    ensures forall k :: 0 <= k < |TimeSlots| ==> TimeSlots[k] == HourLabel(9 + k)
  {
  }

  /** No label occurs twice, so a label identifies one slot button. */
  lemma {:induction false} TimeSlotsDistinct()
    ensures forall j, k :: 0 <= j < |TimeSlots| && 0 <= k < |TimeSlots| && TimeSlots[j] == TimeSlots[k] ==> j == k
  {
    TimeSlotsAreHourly();
    forall j, k | 0 <= j < |TimeSlots| && 0 <= k < |TimeSlots| && TimeSlots[j] == TimeSlots[k]
      ensures j == k
    {
      HourLabelInjective(9 + j, 9 + k);
    }
  }

  /** `bookedTimes[selectedDate]?.includes(time)`: a missing entry reads as not booked. */
  predicate IsBooked(booked: BookedTimes, date: Date, time: string)
    ensures IsBooked(booked, date, time) ==> date in booked && exists j :: 0 <= j < |booked[date]| && booked[date][j] == time
    ensures date !in booked ==> !IsBooked(booked, date, time)
    ensures date in booked && (exists j :: 0 <= j < |booked[date]| && booked[date][j] == time) ==> IsBooked(booked, date, time)
  {
    date in booked && time in booked[date]
  }

  /** One rendered slot button. */
  datatype SlotButton = SlotButton(time: string, disabled: bool)

  /** The slot buttons shown for a selected date, one per label, in order. */
  function SlotButtons(booked: BookedTimes, date: Date): (buttons: seq<SlotButton>)
    ensures |buttons| == |TimeSlots|
    ensures forall k :: 0 <= k < |buttons| ==> buttons[k].time == TimeSlots[k]
  {
    seq(|TimeSlots|, k requires 0 <= k < |TimeSlots| => SlotButton(TimeSlots[k], IsBooked(booked, date, TimeSlots[k])))
  }

  /** A slot button is disabled exactly when its label is listed for the date,
      and a date without an entry has every slot enabled. */
  lemma SlotDisabledIffListed(booked: BookedTimes, date: Date, k: nat)
    requires k < |TimeSlots|
    ensures SlotButtons(booked, date)[k].disabled <==> date in booked && TimeSlots[k] in booked[date]
    ensures date !in booked ==> !SlotButtons(booked, date)[k].disabled
  {
  }

  /** The labels of the enabled buttons are exactly the offered labels not
      listed for the date. */
  lemma {:induction false} EnabledSlotsAreUnbooked(booked: BookedTimes, date: Date, time: string)
    ensures (exists k :: 0 <= k < |TimeSlots| && SlotButtons(booked, date)[k] == SlotButton(time, false))
            <==> time in TimeSlots && !(date in booked && time in booked[date])
  {
    var buttons := SlotButtons(booked, date);
    if time in TimeSlots && !(date in booked && time in booked[date]) {
      var k :| 0 <= k < |TimeSlots| && TimeSlots[k] == time;
      assert buttons[k] == SlotButton(time, false);
    }
  }
}
