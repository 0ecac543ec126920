/** The session booking form (frontend/components/booking/booking-form.tsx):
    which weekdays a coach offers, the time slots shown for a date, which
    dates the calendar disables, and the record handed to `onSubmit`. */
module BookingForm {
  import opened Common

  /** The `switch` from a coach's availability entry to a weekday number
      (`getDay()` numbering: Sunday is 0); any other string is -1. The form
      writes this switch twice, word for word, once for the slots and once
      for the calendar; this one function models both. */
  function DayNumber(day: string): (r: int)
    ensures -1 <= r <= 6
    ensures r == -1 <==> day !in {"Sun", "Mon", "Tue", "Wed", "Thu", "Fri", "Sat"}
  {
    if day == "Mon" then 1
    else if day == "Tue" then 2
    else if day == "Wed" then 3
    else if day == "Thu" then 4
    else if day == "Fri" then 5
    else if day == "Sat" then 6
    else if day == "Sun" then 0
    else -1
  }

  /** The availability label of a weekday number. */
  function DayName(n: int): string
    requires 0 <= n <= 6
  {
    ["Sun", "Mon", "Tue", "Wed", "Thu", "Fri", "Sat"][n]
  }

  /** Sun→0, Mon→1 … Sat→6, and back: the mapping is a bijection between
      the seven labels and 0..6. */
  lemma DayNumberRoundTrip(n: int, day: string)
    requires 0 <= n <= 6
    ensures DayNumber(DayName(n)) == n
    ensures DayNumber(day) != -1 ==> DayName(DayNumber(day)) == day
  {
  }

  /** `coach.availability.map(...)`. */
  function AvailableDays(availability: seq<string>): (r: seq<int>)
    ensures |r| == |availability|
    ensures forall k :: 0 <= k < |r| ==> r[k] == DayNumber(availability[k])
  {
    seq(|availability|, k requires 0 <= k < |availability| => DayNumber(availability[k]))
  }

  /** A weekday is offered exactly when some availability entry names it. */
  lemma OfferedIff(availability: seq<string>, weekday: int)
    requires 0 <= weekday <= 6
    ensures weekday in AvailableDays(availability) <==> DayName(weekday) in availability
  {
    var days := AvailableDays(availability);
    if weekday in days {
      var k :| 0 <= k < |days| && days[k] == weekday;
      DayNumberRoundTrip(weekday, availability[k]);
      assert availability[k] == DayName(weekday);
    }
    if DayName(weekday) in availability {
      var k :| 0 <= k < |availability| && availability[k] == DayName(weekday);
      DayNumberRoundTrip(weekday, availability[k]);
      assert days[k] == weekday;
    }
  }

  /** A calendar date: its weekday (`getDay()`) and its instant. */
  datatype CalendarDate = CalendarDate(weekday: int, instant: int)

  /** The fixed slot list. */
  const Slots: seq<string> :=
    ["09:00 AM", "10:00 AM", "11:00 AM", "01:00 PM", "02:00 PM", "03:00 PM", "04:00 PM"]

  /** `getAvailableTimeSlots()`: the seven slots for a selected date on an
      offered weekday, no slots otherwise (and none before a date is
      picked). */
  function TimeSlots(availability: seq<string>, date: Option<CalendarDate>): (r: seq<string>)
    ensures date.None? ==> r == []
    ensures date.Some? && date.value.weekday in AvailableDays(availability) ==> r == Slots && |r| == 7
    ensures date.Some? && date.value.weekday !in AvailableDays(availability) ==> r == []
  {
    if date.Some? && date.value.weekday in AvailableDays(availability) then Slots else []
  }

  /** The calendar's `disabled` test at the instant `now`. */
  predicate Disabled(availability: seq<string>, date: CalendarDate, now: int) {
    date.weekday !in AvailableDays(availability) || date.instant < now
  }

  /** Any date the calendar lets one pick shows the full slot list, and so
      does every enabled day; a day not offered is disabled whatever the
      time. */
  lemma EnabledDateHasSlots(availability: seq<string>, date: CalendarDate, now: int)
    ensures !Disabled(availability, date, now) ==> TimeSlots(availability, Some(date)) == Slots
    ensures TimeSlots(availability, Some(date)) == [] ==> Disabled(availability, date, now)
  {
  }

  /** The record a booking submits. */
  datatype Booking = Booking(
    name: string, email: string, phone: string, date: Option<CalendarDate>, time: string,
    goals: string, experience: string, package: string, coach: string)

  /** The form's fields. */
  datatype FormFields = FormFields(
    name: string, email: string, phone: string, date: Option<CalendarDate>, time: string,
    goals: string, experience: string)

  /** `handleSubmit`'s argument to `onSubmit`: the form fields as entered,
      plus the package title and the coach's name. */
  function Submission(f: FormFields, packageTitle: string, coachName: string): (b: Booking)
    ensures b.package == packageTitle && b.coach == coachName
    ensures FormFields(b.name, b.email, b.phone, b.date, b.time, b.goals, b.experience) == f
  {
    Booking(f.name, f.email, f.phone, f.date, f.time, f.goals, f.experience, packageTitle, coachName)
  }
}
