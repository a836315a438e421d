/**
 * The reminder scheduler inlined in `processForm`: each reminder's date is a
 * copy of the deadline (`new Date(deadlineDate)`), either moved to 7 AM on
 * the same day or moved back by whole days and then by hours through the
 * `Date` setters.
 */
module Reminders {
  import opened Calendar

  /** How a reminder option places its reminder relative to the deadline. */
  datatype Timing =
    | SevenAmDayOf                   // `data-special="7am"`
    | Before(days: int, hours: int)  // `data-days`, `data-hours`, already parsed

  datatype ReminderRule = ReminderRule(name: string, timing: Timing)

  /**
   * Where a reminder lands: 7 AM on the deadline's date, or the deadline
   * moved back by whole days and then by hours.
   */
  function ReminderDate(deadline: Moment, timing: Timing): (r: Moment)
    ensures timing.SevenAmDayOf? ==>
      && r.year == deadline.year && r.month == deadline.month && r.day == deadline.day
      && r.hour == 7 && r.minute == 0 && r.second == 0 && r.millisecond == 0
    ensures timing.Before? ==>
      TimeValue(r) == TimeValue(deadline) - timing.days * MsPerDay - timing.hours * MsPerHour
  {
    match timing
    case SevenAmDayOf => SetHoursFull(deadline, 7, 0, 0, 0)
    case Before(days, hours) => HoursBefore(DaysBefore(deadline, days), hours)
  }

  /** `setDate(getDate() - days)`. */
  function DaysBefore(t: Moment, days: int): Moment {
    SetDate(t, t.day - days)
  }

  /** `setHours(getHours() - hours)`. */
  function HoursBefore(t: Moment, hours: int): Moment {
    SetHours(t, t.hour - hours)
  }

  /**
   * The reminder's date.  The deadline is a value, so the copy the source
   * makes is implicit and the deadline cannot change.
   */
  method ComputeReminder(deadline: Moment, timing: Timing) returns (reminder: Moment)
    ensures reminder == ReminderDate(deadline, timing)
    ensures timing.SevenAmDayOf? ==>
      && reminder.year == deadline.year && reminder.month == deadline.month && reminder.day == deadline.day
      && reminder.hour == 7 && reminder.minute == 0 && reminder.second == 0 && reminder.millisecond == 0
    ensures timing.Before? ==>
      TimeValue(reminder) == TimeValue(deadline) - timing.days * MsPerDay - timing.hours * MsPerHour
  {
    var date := deadline;
    match timing {
      case SevenAmDayOf =>
        date := SetHoursFull(date, 7, 0, 0, 0);
      case Before(days, hours) =>
        date := DaysBefore(date, days);
        date := HoursBefore(date, hours);
    }
    reminder := date;
  }

  /**
   * Without daylight-saving jumps the order of the two setters does not
   * matter: hours first, then days, lands on the same moment.
   */
  lemma DaysThenHoursIsHoursThenDays(deadline: Moment, days: int, hours: int, daysFirst: Moment, hoursFirst: Moment)
    requires daysFirst == SetHours(SetDate(deadline, deadline.day - days), deadline.hour - hours)
    requires hoursFirst == SetDate(SetHours(deadline, deadline.hour - hours), SetHours(deadline, deadline.hour - hours).day - days)
    ensures daysFirst == hoursFirst
  {
    DaysBack(deadline, days);
    HoursBack(SetDate(deadline, deadline.day - days), hours);
    HoursBack(deadline, hours);
    DaysBack(SetHours(deadline, deadline.hour - hours), days);
    TimeValueInjective(daysFirst, hoursFirst);
  }

  lemma DaysBack(t: Moment, days: int)
    ensures TimeValue(SetDate(t, t.day - days)) == TimeValue(t) - days * MsPerDay
  {
  }

  lemma HoursBack(t: Moment, hours: int)
    ensures TimeValue(SetHours(t, t.hour - hours)) == TimeValue(t) - hours * MsPerHour
  {
  }

  /** "1 Day" before 2025-06-16 17:00 is 2025-06-15 17:00. */
  lemma OneDayBeforeExample(reminder: Moment)
    requires TimeValue(reminder) == TimeValue(DateTime(2025, 5, 16, 17, 0, 0, 0)) - 1 * MsPerDay - 0 * MsPerHour
    ensures reminder == DateTime(2025, 5, 15, 17, 0, 0, 0)
  {
    TimeValueInjective(reminder, DateTime(2025, 5, 15, 17, 0, 0, 0));
  }

  /** One day before 2024-03-01 is the leap day 2024-02-29. */
  lemma LeapDayBorrowExample(r: Moment)
    requires TimeValue(r) == TimeValue(DateTime(2024, 2, 1, 9, 30, 0, 0)) - 1 * MsPerDay - 0 * MsPerHour
    ensures r == DateTime(2024, 1, 29, 9, 30, 0, 0)
  {
    TimeValueInjective(r, DateTime(2024, 1, 29, 9, 30, 0, 0));
  }

  /** One day before 2025-01-01 is 2024-12-31: the day borrows from the month and the year. */
  lemma YearBorrowExample(r: Moment)
    requires TimeValue(r) == TimeValue(DateTime(2025, 0, 1, 9, 30, 0, 0)) - 1 * MsPerDay - 0 * MsPerHour
    ensures r == DateTime(2024, 11, 31, 9, 30, 0, 0)
  {
    YearStep(2024);
    assert DayNumber(2024, 11, 31) == DayNumber(2025, 0, 1) - 1;
    TimeValueInjective(r, DateTime(2024, 11, 31, 9, 30, 0, 0));
  }

  /** Two hours before 2025-03-01 01:00 is 2025-02-28 23:00: the hour borrows from the day. */
  lemma HourBorrowExample(r: Moment)
    requires TimeValue(r) == TimeValue(DateTime(2025, 2, 1, 1, 0, 0, 0)) - 0 * MsPerDay - 2 * MsPerHour
    ensures r == DateTime(2025, 1, 28, 23, 0, 0, 0)
  {
    TimeValueInjective(r, DateTime(2025, 1, 28, 23, 0, 0, 0));
  }
}
