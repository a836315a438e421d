/**
 * The local calendar fields of a JavaScript `Date` and the field setters the
 * core uses (`setDate`, `setHours`, `setMinutes`).  A setter may be handed an
 * out-of-range value; ECMAScript then rebuilds the date from MakeDay and
 * MakeTime, which borrows from (or carries into) the month, the year and the
 * day.  The model does the same, with the proleptic Gregorian leap-year rule.
 * Local time is taken as a continuous wall clock: daylight-saving gaps and
 * overlaps are not modelled.
 */
module Calendar {

  const MsPerSecond: int := 1000
  const MsPerMinute: int := 60000
  const MsPerHour: int := 3600000
  const MsPerDay: int := 86400000

  /** The fields `getFullYear`, `getMonth` (0-11), `getDate`, `getHours`, `getMinutes`, `getSeconds`, `getMilliseconds` return. */
  datatype DateTime = DateTime(year: int, month: int, day: int, hour: int, minute: int, second: int, millisecond: int)

  predicate IsLeapYear(y: int) {
    y % 4 == 0 && (y % 100 != 0 || y % 400 == 0)
  }

  function DaysInYear(y: int): int {
    if IsLeapYear(y) then 366 else 365
  }

  function DaysInMonth(y: int, m: int): int
    requires 0 <= m < 12
  {
    if m == 1 then (if IsLeapYear(y) then 29 else 28)
    else if m == 3 || m == 5 || m == 8 || m == 10 then 30
    else 31
  }

  predicate ValidDate(y: int, m: int, d: int) {
    0 <= m < 12 && 1 <= d <= DaysInMonth(y, m)
  }

  predicate Valid(t: DateTime) {
    && ValidDate(t.year, t.month, t.day)
    && 0 <= t.hour < 24 && 0 <= t.minute < 60 && 0 <= t.second < 60 && 0 <= t.millisecond < 1000
  }

  /** A valid `Date`: its getters always return normalised fields. */
  type Moment = t: DateTime | Valid(t) witness DateTime(1970, 0, 1, 0, 0, 0, 0)

  /** DayFromYear of ECMAScript: the day number of January 1 of year y, counted from 1970-01-01. */
  function DayFromYear(y: int): int {
    365 * (y - 1970) + (y - 1969) / 4 - (y - 1901) / 100 + (y - 1601) / 400
  }

  /** Days of year y before the first day of month m. */
  function MonthStart(y: int, m: int): int
    requires 0 <= m < 12
  {
    [0, 31, 59, 90, 120, 151, 181, 212, 243, 273, 304, 334][m] + (if m >= 2 && IsLeapYear(y) then 1 else 0)
  }

  /** MakeDay of ECMAScript: the day number of day d of month m of year y, for any d, in range or not. */
  function DayNumber(y: int, m: int, d: int): int
    requires 0 <= m < 12
  {
    DayFromYear(y) + MonthStart(y, m) + d - 1
  }

  /** The time value (milliseconds since 1970-01-01T00:00 of the same clock) of a set of fields. */
  function TimeValue(t: DateTime): int
    requires 0 <= t.month < 12
  {
    DayNumber(t.year, t.month, t.day) * MsPerDay
      + t.hour * MsPerHour + t.minute * MsPerMinute + t.second * MsPerSecond + t.millisecond
  }

  lemma DivStep4(a: int)
    ensures (a + 1) / 4 - a / 4 == if (a + 1) % 4 == 0 then 1 else 0
  {
  }

  lemma DivStep100(a: int)
    ensures (a + 1) / 100 - a / 100 == if (a + 1) % 100 == 0 then 1 else 0
  {
  }

  lemma DivStep400(a: int)
    ensures (a + 1) / 400 - a / 400 == if (a + 1) % 400 == 0 then 1 else 0
  {
  }

  lemma ShiftMod4(y: int)
    ensures (y - 1968) % 4 == y % 4
  {
    var q, r := y / 4, y % 4;
    assert y - 1968 == 4 * (q - 492) + r;
  }

  lemma ShiftMod100(y: int)
    ensures (y - 1900) % 100 == y % 100
  {
    var q, r := y / 100, y % 100;
    assert y - 1900 == 100 * (q - 19) + r;
  }

  lemma ShiftMod400(y: int)
    ensures (y - 1600) % 400 == y % 400
  {
    var q, r := y / 400, y % 400;
    assert y - 1600 == 400 * (q - 4) + r;
  }

  /** Consecutive years start DaysInYear apart: DayFromYear agrees with the leap-year rule. */
  lemma YearStep(y: int)
    ensures DayFromYear(y + 1) == DayFromYear(y) + DaysInYear(y)
  {
    LeapCount4(y);
    LeapCount100(y);
    LeapCount400(y);
    var leap := if IsLeapYear(y) then 1 else 0;
    assert (y + 1 - 1969) / 4 - (y + 1 - 1901) / 100 + (y + 1 - 1601) / 400
      == (y - 1969) / 4 - (y - 1901) / 100 + (y - 1601) / 400 + leap;
  }

  /** Going from year y to y + 1, the count of multiples of 4 passed grows by one exactly when y is one. */
  lemma LeapCount4(y: int)
    ensures (y + 1 - 1969) / 4 - (y - 1969) / 4 == if y % 4 == 0 then 1 else 0
  {
    DivStep4(y - 1969);
    ShiftMod4(y);
  }

  lemma LeapCount100(y: int)
    ensures (y + 1 - 1901) / 100 - (y - 1901) / 100 == if y % 100 == 0 then 1 else 0
  {
    DivStep100(y - 1901);
    ShiftMod100(y);
  }

  lemma LeapCount400(y: int)
    ensures (y + 1 - 1601) / 400 - (y - 1601) / 400 == if y % 400 == 0 then 1 else 0
  {
    DivStep400(y - 1601);
    ShiftMod400(y);
  }

  /** Day d of month m is day d + DaysInMonth of the month before it, across a year boundary too. */
  lemma BorrowMonth(y: int, m: int, d: int)
    requires 0 <= m < 12
    ensures var py := if m == 0 then y - 1 else y;
      var pm := if m == 0 then 11 else m - 1;
      DayNumber(py, pm, d + DaysInMonth(py, pm)) == DayNumber(y, m, d)
  {
    if m == 0 {
      YearStep(y - 1);
    }
  }

  /** Day d of month m is day d - DaysInMonth(y, m) of the month after it, across a year boundary too. */
  lemma CarryMonth(y: int, m: int, d: int)
    requires 0 <= m < 12
    ensures var ny := if m == 11 then y + 1 else y;
      var nm := if m == 11 then 0 else m + 1;
      DayNumber(ny, nm, d - DaysInMonth(y, m)) == DayNumber(y, m, d)
  {
    if m == 11 {
      YearStep(y);
    }
  }

  /**
   * The date MakeDay(y, m, d) falls on, for a day of month d that may be
   * zero, negative or past the end of the month: borrowing from earlier
   * months or carrying into later ones, across years.
   */
  function Normalize(y: int, m: int, d: int): (r: (int, int, int))
    requires 0 <= m < 12
    ensures ValidDate(r.0, r.1, r.2)
    ensures DayNumber(r.0, r.1, r.2) == DayNumber(y, m, d)
    decreases (if d < 1 then 1 - d else 0), (if d > DaysInMonth(y, m) then d else 0)
  {
    if d < 1 then
      var py := if m == 0 then y - 1 else y;
      var pm := if m == 0 then 11 else m - 1;
      BorrowMonth(y, m, d);
      Normalize(py, pm, d + DaysInMonth(py, pm))
    else if d > DaysInMonth(y, m) then
      var ny := if m == 11 then y + 1 else y;
      var nm := if m == 11 then 0 else m + 1;
      CarryMonth(y, m, d);
      Normalize(ny, nm, d - DaysInMonth(y, m))
    else
      (y, m, d)
  }

  /**
   * MakeDate(Day(t), MakeTime(h, mi, s, ms)) decomposed back into fields:
   * what a setter that rewrites the time of day leaves in the `Date`.
   */
  function WithTime(t: Moment, h: int, mi: int, s: int, ms: int): (r: Moment)
    ensures TimeValue(r) == DayNumber(t.year, t.month, t.day) * MsPerDay
      + h * MsPerHour + mi * MsPerMinute + s * MsPerSecond + ms
  {
    var total := h * MsPerHour + mi * MsPerMinute + s * MsPerSecond + ms;
    var date := Normalize(t.year, t.month, t.day + total / MsPerDay);
    var rest := total % MsPerDay;
    var seconds := rest / MsPerSecond;
    var minutes := seconds / 60;
    DateTime(date.0, date.1, date.2, minutes / 60, minutes % 60, seconds % 60, rest % MsPerSecond)
  }

  /** `date.setDate(d)`: keeps the time of day, moves to day d of the current month (normalised). */
  function SetDate(t: Moment, d: int): (r: Moment)
    ensures TimeValue(r) == TimeValue(t) + (d - t.day) * MsPerDay
    ensures r.hour == t.hour && r.minute == t.minute && r.second == t.second && r.millisecond == t.millisecond
  {
    var date := Normalize(t.year, t.month, d);
    t.(year := date.0, month := date.1, day := date.2)
  }

  /** `date.setHours(h)`: keeps minutes, seconds and milliseconds. */
  function SetHours(t: Moment, h: int): (r: Moment)
    ensures TimeValue(r) == TimeValue(t) + (h - t.hour) * MsPerHour
  {
    WithTime(t, h, t.minute, t.second, t.millisecond)
  }

  /** `date.setHours(h, mi, s, ms)`. */
  function SetHoursFull(t: Moment, h: int, mi: int, s: int, ms: int): (r: Moment)
    requires 0 <= h < 24 && 0 <= mi < 60 && 0 <= s < 60 && 0 <= ms < 1000
    ensures r.year == t.year && r.month == t.month && r.day == t.day
    ensures r.hour == h && r.minute == mi && r.second == s && r.millisecond == ms
  {
    WithTime(t, h, mi, s, ms)
  }

  /** `date.setMinutes(mi)`: keeps seconds and milliseconds. */
  function SetMinutes(t: Moment, mi: int): (r: Moment)
    ensures TimeValue(r) == TimeValue(t) + (mi - t.minute) * MsPerMinute
  {
    WithTime(t, t.hour, mi, t.second, t.millisecond)
  }

  lemma {:induction false} DayFromYearMonotone(a: int, b: int)
    requires a <= b
    ensures DayFromYear(a) + 365 * (b - a) <= DayFromYear(b)
    decreases b - a
  {
    if a < b {
      DayFromYearMonotone(a, b - 1);
      YearStep(b - 1);
    }
  }

  lemma {:induction false} MonthStartMonotone(y: int, a: int, b: int)
    requires 0 <= a < b < 12
    ensures MonthStart(y, a) + DaysInMonth(y, a) <= MonthStart(y, b)
  {
  }

  lemma DateInYear(y: int, m: int, d: int)
    requires ValidDate(y, m, d)
    ensures DayFromYear(y) <= DayNumber(y, m, d) < DayFromYear(y + 1)
  {
    YearStep(y);
  }

  /** A valid calendar date is determined by its day number. */
  lemma DayNumberInjective(y1: int, m1: int, d1: int, y2: int, m2: int, d2: int)
    requires ValidDate(y1, m1, d1) && ValidDate(y2, m2, d2)
    requires DayNumber(y1, m1, d1) == DayNumber(y2, m2, d2)
    ensures y1 == y2 && m1 == m2 && d1 == d2
  {
    DateInYear(y1, m1, d1);
    DateInYear(y2, m2, d2);
    YearOfDay(y1, y2, DayNumber(y1, m1, d1));
    SameYearInjective(y1, m1, d1, m2, d2);
  }

  /** Years do not overlap: a day number lies in one year only. */
  lemma YearOfDay(y1: int, y2: int, n: int)
    requires DayFromYear(y1) <= n < DayFromYear(y1 + 1)
    requires DayFromYear(y2) <= n < DayFromYear(y2 + 1)
    ensures y1 == y2
  {
    if y1 < y2 {
      DayFromYearMonotone(y1 + 1, y2);
    } else if y2 < y1 {
      DayFromYearMonotone(y2 + 1, y1);
    }
  }

  lemma SameYearInjective(y: int, m1: int, d1: int, m2: int, d2: int)
    requires ValidDate(y, m1, d1) && ValidDate(y, m2, d2)
    requires MonthStart(y, m1) + d1 == MonthStart(y, m2) + d2
    ensures m1 == m2 && d1 == d2
  {
    if m1 < m2 {
      MonthStartMonotone(y, m1, m2);
    } else if m2 < m1 {
      MonthStartMonotone(y, m2, m1);
    }
  }

  /** A valid date-time is determined by its time value. */
  lemma TimeValueInjective(a: Moment, b: Moment)
    requires TimeValue(a) == TimeValue(b)
    ensures a == b
  {
    var ta := a.hour * MsPerHour + a.minute * MsPerMinute + a.second * MsPerSecond + a.millisecond;
    var tb := b.hour * MsPerHour + b.minute * MsPerMinute + b.second * MsPerSecond + b.millisecond;
    var da := DayNumber(a.year, a.month, a.day);
    var db := DayNumber(b.year, b.month, b.day);
    assert 0 <= ta < MsPerDay && 0 <= tb < MsPerDay;
    assert da == db;
    DayNumberInjective(a.year, a.month, a.day, b.year, b.month, b.day);
    assert ta == tb;
  }

  /** ECMAScript WeekDay: 0 is Sunday; 1970-01-01 was a Thursday. */
  function WeekDay(dayNumber: int): int {
    (dayNumber + 4) % 7
  }
}
