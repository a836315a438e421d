/**
 * The two timestamp formatters: `formatLocalDateForICS` (the local fields,
 * for a DTSTART/DTEND with a TZID) and `formatUTCDateForICS` (the UTC
 * fields, with a trailing `Z`, for DTSTAMP), the DATE-TIME forms of
 * section 3.3.5 of RFC 5545.
 */
module Timestamps {
  import opened Wrappers
  import opened JsText
  import opened Calendar

  /** What the composer may be handed as an event date. */
  datatype DateValue =
    | Instant(t: Moment)   // a `Date` holding a time value
    | InvalidDate          // a `Date` whose time value is NaN (passes `instanceof Date`)
    | NotADate             // anything that is not a `Date`

  datatype Error = NotADateError

  /** `${year}${month}${day}T${hours}${minutes}${seconds}`, month shown 1-based, all but the year padded to two digits. */
  function Stamp(t: Moment): string {
    DateDigits(t) + "T" + TimeDigits(t)
  }

  function DateDigits(t: Moment): string {
    IntToString(t.year) + Pad2(t.month + 1) + Pad2(t.day)
  }

  function TimeDigits(t: Moment): string {
    Pad2(t.hour) + Pad2(t.minute) + Pad2(t.second)
  }

  /** What the same template yields for an invalid `Date`: every getter returns NaN. */
  const NaNStamp: string := "NaNNaNNaNTNaNNaNNaN"

  /** The text of a `Date` that passed the `instanceof` check. */
  function DateText(v: DateValue): string
    requires !v.NotADate?
  {
    if v.Instant? then Stamp(v.t) else NaNStamp
  }

  /** `formatLocalDateForICS`: throws for a non-`Date`, formats the local fields otherwise. */
  function FormatLocal(v: DateValue): (r: Result<string, Error>)
    ensures r.Failure? <==> v.NotADate?
  {
    if v.NotADate? then Failure(NotADateError) else Success(DateText(v))
  }

  /** `formatUTCDateForICS`, applied to the UTC fields of an instant. */
  function FormatUtc(utc: Moment): (r: string)
    ensures |r| >= 1 && r[|r| - 1] == 'Z' && r[..|r| - 1] == Stamp(utc)
  {
    Stamp(utc) + "Z"
  }

  /**
   * For a four-digit year the stamp is `YYYYMMDD`, a `T`, then `HHMMSS`:
   * fifteen characters.
   */
  lemma StampLayout(t: Moment, s: string)
    requires 1000 <= t.year <= 9999 && s == Stamp(t)
    ensures |s| == 15 && s[..8] == DateDigits(t) && s[8] == 'T' && s[9..] == TimeDigits(t)
  {
    DatePart(t, DateDigits(t));
    TimePart(t, TimeDigits(t));
  }

  /** The date group is eight digits that read back as the year, the 1-based month and the day. */
  lemma DatePart(t: Moment, date: string)
    requires 1000 <= t.year <= 9999 && date == DateDigits(t)
    ensures |date| == 8 && AllDigits(date)
    ensures DigitsValue(date[0..4]) == t.year
    ensures DigitsValue(date[4..6]) == t.month + 1 && DigitsValue(date[6..8]) == t.day
  {
    var y := IntToString(t.year);
    DecimalWidth(t.year);
    DecimalRoundTrip(t.year);
    assert date[0..4] == y;
    assert date[4..6] == Pad2(t.month + 1);
    assert date[6..8] == Pad2(t.day);
    DigitsAppend(y, Pad2(t.month + 1));
    DigitsAppend(y + Pad2(t.month + 1), Pad2(t.day));
  }

  /** The time group is six digits that read back as the hours, minutes and seconds. */
  lemma TimePart(t: Moment, time: string)
    requires time == TimeDigits(t)
    ensures |time| == 6 && AllDigits(time)
    ensures DigitsValue(time[0..2]) == t.hour && DigitsValue(time[2..4]) == t.minute
    ensures DigitsValue(time[4..6]) == t.second
  {
    assert time[0..2] == Pad2(t.hour);
    assert time[2..4] == Pad2(t.minute);
    assert time[4..6] == Pad2(t.second);
    DigitsAppend(Pad2(t.hour), Pad2(t.minute));
    DigitsAppend(Pad2(t.hour) + Pad2(t.minute), Pad2(t.second));
  }

  lemma DigitsAppend(a: string, b: string)
    requires AllDigits(a) && AllDigits(b)
    ensures AllDigits(a + b)
  {
  }

  /** Two moments with four-digit years and the same stamp agree on every field but the milliseconds. */
  lemma StampInjective(a: Moment, b: Moment)
    requires 1000 <= a.year <= 9999 && 1000 <= b.year <= 9999
    requires Stamp(a) == Stamp(b)
    ensures a.(millisecond := 0) == b.(millisecond := 0)
  {
    StampLayout(a, Stamp(a));
    StampLayout(b, Stamp(b));
    DatePart(a, DateDigits(a));
    DatePart(b, DateDigits(b));
    TimePart(a, TimeDigits(a));
    TimePart(b, TimeDigits(b));
  }

  /** The UTC form is the same stamp followed by exactly one `Z`: sixteen characters for a four-digit year. */
  lemma UtcLayout(utc: Moment)
    requires 1000 <= utc.year <= 9999
    ensures |FormatUtc(utc)| == 16 && FormatUtc(utc)[15] == 'Z' && FormatUtc(utc)[..15] == Stamp(utc)
  {
    StampLayout(utc, Stamp(utc));
  }
}
