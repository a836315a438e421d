/**
 * The event composer, `generateICSEvent`: one VEVENT block (section 3.6.1 of
 * RFC 5545) with its properties in a fixed order, each folded, followed by a
 * fixed 15-minute display alarm (section 3.6.6).  The page fields it reads
 * and the clock and random values it draws are parameters here.
 */
module Events {
  import opened Wrappers
  import opened JsText
  import opened Folding
  import opened Calendar
  import opened Timestamps
  import Config
  import opened EventLayout

  /** The arguments of `generateICSEvent`; `location` is "" when the caller passes none. */
  datatype EventRequest = EventRequest(
    date: DateValue, summary: string, description: string, priority: string, isMainEvent: bool, location: string)

  /**
   * The page fields `generateICSEvent` reads: the organizer's name and e-mail
   * as typed (untrimmed), `parseInt` of the duration field (None when NaN),
   * and the "mark as busy" check box.
   */
  datatype FormFields = FormFields(organizerName: string, organizerEmail: string, duration: Option<int>, markAsBusy: bool)

  /**
   * What one call draws from the environment: the UTC fields of `new Date()`
   * for DTSTAMP, `new Date().getTime()` and the two upper-cased hexadecimal
   * fragments of `Math.random()` for the UID.
   */
  datatype Entropy = Entropy(utcNow: Moment, millis: int, randomHex1: string, randomHex2: string)

  /** PRIORITY (section 3.8.1.9 of RFC 5545): 1 for "high", 9 for "low", 5 for anything else. */
  function IcsPriority(priority: string): (r: string)
    ensures r == "1" <==> priority == "high"
    ensures r == "9" <==> priority == "low"
    ensures r == "5" <==> priority != "high" && priority != "low"
  {
    if priority == "high" then "1" else if priority == "low" then "9" else "5"
  }

  /** `description.replace(/\n/g, '\\n')`: every line feed becomes the two characters backslash and n. */
  function EscapeNewlines(s: string): (r: string)
    ensures forall i :: 0 <= i < |r| ==> r[i] != '\n'
    ensures |r| == |s| + multiset(s)['\n']
  {
    if s == [] then []
    else
      assert s == [s[0]] + s[1..];
      (if s[0] == '\n' then "\\n" else [s[0]]) + EscapeNewlines(s[1..])
  }

  /** Reading the escape back: backslash and n become a line feed. */
  function UnescapeNewlines(r: string): string
  {
    if |r| >= 2 && r[0] == '\\' && r[1] == 'n' then "\n" + UnescapeNewlines(r[2..])
    else if r == [] then []
    else [r[0]] + UnescapeNewlines(r[1..])
  }

  /** For a description without backslashes the escape can be read back. */
  lemma {:induction false} EscapeRoundTrip(s: string)
    requires forall i :: 0 <= i < |s| ==> s[i] != '\\'
    ensures UnescapeNewlines(EscapeNewlines(s)) == s
  {
    if s != [] {
      assert forall i :: 0 <= i < |s[1..]| ==> s[1..][i] != '\\' by {
        forall i | 0 <= i < |s[1..]| ensures s[1..][i] != '\\' {
          assert s[1..][i] == s[i + 1];
        }
      }
      EscapeRoundTrip(s[1..]);
      var tail := EscapeNewlines(s[1..]);
      if s[0] == '\n' {
        assert EscapeNewlines(s) == "\\n" + tail;
        UnescapeLineFeed(tail);
      } else {
        assert EscapeNewlines(s) == [s[0]] + tail;
        UnescapeOther(s[0], tail);
      }
      assert s == [s[0]] + s[1..];
    }
  }

  lemma UnescapeLineFeed(tail: string)
    ensures UnescapeNewlines("\\n" + tail) == "\n" + UnescapeNewlines(tail)
  {
    var r := "\\n" + tail;
    assert r[0] == '\\' && r[1] == 'n' && r[2..] == tail;
  }

  lemma UnescapeOther(c: char, tail: string)
    requires c != '\\'
    ensures UnescapeNewlines([c] + tail) == [c] + UnescapeNewlines(tail)
  {
    var r := [c] + tail;
    assert r[0] == c && r[1..] == tail;
  }

  /**
   * Only line feeds are escaped (section 3.3.11 of RFC 5545 also escapes the
   * backslash), so a typed backslash followed by n and a line break produce the
   * same DESCRIPTION text.
   */
  lemma EscapeAmbiguity()
    ensures EscapeNewlines("\\n") == EscapeNewlines("\n")
    ensures "\\n" != "\n"
  {
    assert EscapeNewlines("\\n") == "\\" + EscapeNewlines("n");
  }

  /** Whether the event is shown as busy: only a main event whose box is checked. */
  predicate IsBusy(ev: EventRequest, form: FormFields) {
    ev.isMainEvent && form.markAsBusy
  }

  /** The event's length in minutes: the form's duration for the main event, 1 for a reminder. */
  function Duration(ev: EventRequest, form: FormFields): Option<int> {
    if ev.isMainEvent then form.duration else Some(1)
  }

  /** `new Date(eventDate)` followed by `setMinutes(getMinutes() + duration)`. */
  function EndDate(start: DateValue, minutes: Option<int>): (r: DateValue)
    requires !start.NotADate?
    ensures start.Instant? && minutes.Some? ==>
      r.Instant? && TimeValue(r.t) == TimeValue(start.t) + minutes.value * MsPerMinute
    ensures !(start.Instant? && minutes.Some?) ==> r.InvalidDate?
  {
    if start.Instant? && minutes.Some? then Instant(SetMinutes(start.t, start.t.minute + minutes.value))
    else InvalidDate
  }

  function Uid(entropy: Entropy): string {
    entropy.randomHex1 + IntToString(entropy.millis) + entropy.randomHex2
  }

  function BusyStatus(ev: EventRequest, form: FormFields): string {
    if IsBusy(ev, form) then "BUSY" else "FREE"
  }

  function UidLine(entropy: Entropy): string { "UID:" + Uid(entropy) }
  function DtStampLine(entropy: Entropy): string { "DTSTAMP:" + FormatUtc(entropy.utcNow) }
  function DtStartLine(ev: EventRequest): string
    requires !ev.date.NotADate?
  {
    "DTSTART;" + ("TZID=" + Config.TimeZone + ":" + FormatLocal(ev.date).value)
  }
  function DtEndLine(ev: EventRequest, form: FormFields): string
    requires !ev.date.NotADate?
  {
    "DTEND;" + ("TZID=" + Config.TimeZone + ":" + FormatLocal(EndDate(ev.date, Duration(ev, form))).value)
  }
  function SummaryLine(ev: EventRequest): string { "SUMMARY:" + ev.summary }
  function DescriptionLine(ev: EventRequest): string { "DESCRIPTION:" + EscapeNewlines(ev.description) }
  function PriorityLine(ev: EventRequest): string { "PRIORITY:" + IcsPriority(ev.priority) }
  function TranspLine(ev: EventRequest, form: FormFields): string {
    "TRANSP:" + if IsBusy(ev, form) then "OPAQUE" else "TRANSPARENT"
  }
  function BusyStatusLine(ev: EventRequest, form: FormFields): string {
    "X-MICROSOFT-CDO-BUSYSTATUS:" + BusyStatus(ev, form)
  }
  function IntendedStatusLine(ev: EventRequest, form: FormFields): string {
    "X-MICROSOFT-CDO-INTENDEDSTATUS:" + BusyStatus(ev, form)
  }
  /** The organizer's trimmed name goes unescaped inside the quoted CN parameter. */
  function OrganizerLine(form: FormFields): string {
    "ORGANIZER;" + ("CN=\"" + Trim(form.organizerName) + "\":mailto:" + Trim(form.organizerEmail))
  }
  function LocationLine(ev: EventRequest): string { "LOCATION:" + ev.location }

  predicate HasLocation(ev: EventRequest) {
    ev.isMainEvent && ev.location != ""
  }

  /** The property lines `generateICSEvent` formats for one event. */
  function Properties(ev: EventRequest, form: FormFields, entropy: Entropy): EventProperties
    requires !ev.date.NotADate?
  {
    EventProperties(UidLine(entropy), DtStampLine(entropy), DtStartLine(ev), DtEndLine(ev, form),
      SummaryLine(ev), DescriptionLine(ev), PriorityLine(ev), TranspLine(ev, form), BusyStatusLine(ev, form),
      IntendedStatusLine(ev, form), OrganizerLine(form),
      if HasLocation(ev) then Some(LocationLine(ev)) else None)
  }

  function EventEntries(ev: EventRequest, form: FormFields, entropy: Entropy): seq<Entry>
    requires !ev.date.NotADate?
  {
    Layout(Properties(ev, form, entropy))
  }

  /** The event's content lines before folding. */
  function EventContent(ev: EventRequest, form: FormFields, entropy: Entropy): seq<string>
    requires !ev.date.NotADate?
  {
    Texts(EventEntries(ev, form, entropy))
  }

  /** `generateICSEvent`: throws for an event date that is not a `Date`. */
  function EventLines(ev: EventRequest, form: FormFields, entropy: Entropy): Result<seq<string>, Error> {
    if ev.date.NotADate? then Failure(NotADateError) else Success(Render(EventEntries(ev, form, entropy)))
  }

  /** `generateICSEvent`, spreading the entries' lines into one array. */
  method ComposeEvent(ev: EventRequest, form: FormFields, entropy: Entropy) returns (r: Result<seq<string>, Error>)
    ensures r == EventLines(ev, form, entropy)
  {
    if ev.date.NotADate? {
      return Failure(NotADateError);
    }
    var lines := RenderEntries(EventEntries(ev, form, entropy));
    return Success(lines);
  }

  lemma PropertiesWellNamed(ev: EventRequest, form: FormFields, entropy: Entropy)
    requires !ev.date.NotADate?
    ensures WellNamed(Properties(ev, form, entropy))
  {
    NamedBy("UID:", Uid(entropy));
    NamedBy("DTSTAMP:", FormatUtc(entropy.utcNow));
    NamedBy("DTSTART;", "TZID=" + Config.TimeZone + ":" + FormatLocal(ev.date).value);
    NamedBy("DTEND;", "TZID=" + Config.TimeZone + ":" + FormatLocal(EndDate(ev.date, Duration(ev, form))).value);
    NamedBy("SUMMARY:", ev.summary);
    NamedBy("DESCRIPTION:", EscapeNewlines(ev.description));
    NamedBy("PRIORITY:", IcsPriority(ev.priority));
    NamedBy("TRANSP:", if IsBusy(ev, form) then "OPAQUE" else "TRANSPARENT");
    NamedBy("X-MICROSOFT-CDO-BUSYSTATUS:", BusyStatus(ev, form));
    NamedBy("X-MICROSOFT-CDO-INTENDEDSTATUS:", BusyStatus(ev, form));
    NamedBy("ORGANIZER;", "CN=\"" + Trim(form.organizerName) + "\":mailto:" + Trim(form.organizerEmail));
    NamedBy("LOCATION:", ev.location);
  }


  /**
   * Every physical line of the block fits in 75 characters, and joining the
   * continuations back gives the content lines in order.
   */
  lemma EventFolding(ev: EventRequest, form: FormFields, entropy: Entropy, lines: seq<string>)
    requires EventLines(ev, form, entropy) == Success(lines)
    ensures forall i :: 0 <= i < |lines| ==> |lines[i]| <= MaxLineLength
    ensures UnfoldLines(lines) == EventContent(ev, form, entropy)
  {
    PropertiesWellNamed(ev, form, entropy);
    LayoutFolding(Properties(ev, form, entropy));
  }

  /** The block is the folding of the event's content lines, none of which looks like a continuation. */
  lemma EventIsFolded(ev: EventRequest, form: FormFields, entropy: Entropy, lines: seq<string>)
    requires EventLines(ev, form, entropy) == Success(lines)
    ensures lines == FoldAll(EventContent(ev, form, entropy))
    ensures forall i :: 0 <= i < |EventContent(ev, form, entropy)| ==> !IsContinuation(EventContent(ev, form, entropy)[i])
  {
    PropertiesWellNamed(ev, form, entropy);
    LayoutRendersFolded(Properties(ev, form, entropy));
  }

  /** The block starts with BEGIN:VEVENT, ends with END:VEVENT, and holds each of them once. */
  lemma EventDelimited(ev: EventRequest, form: FormFields, entropy: Entropy, lines: seq<string>)
    requires EventLines(ev, form, entropy) == Success(lines)
    ensures |lines| >= 2 && lines[0] == "BEGIN:VEVENT" && lines[|lines| - 1] == "END:VEVENT"
    ensures multiset(lines)["BEGIN:VEVENT"] == 1 && multiset(lines)["END:VEVENT"] == 1
    ensures |lines| >= 6 && lines[|lines| - 6..] == [
      "BEGIN:VALARM", "ACTION:DISPLAY", "DESCRIPTION:Reminder",
      "TRIGGER;RELATED=START:-PT15M", "END:VALARM", "END:VEVENT"]
  {
    PropertiesWellNamed(ev, form, entropy);
    LayoutDelimited(Properties(ev, form, entropy));
    LayoutAlarmTail(Properties(ev, form, entropy));
  }

  /** Of the lines beginning with `B` or `E`, the block holds exactly the four component delimiters, once each. */
  lemma EventMarkerCount(ev: EventRequest, form: FormFields, entropy: Entropy, lines: seq<string>, marker: string)
    requires EventLines(ev, form, entropy) == Success(lines)
    requires 0 < |marker| < MaxLineLength && (marker[0] == 'B' || marker[0] == 'E')
    ensures multiset(lines)[marker] == DelimiterOccurrences(marker)
  {
    PropertiesWellNamed(ev, form, entropy);
    LayoutMarkerCount(Properties(ev, form, entropy), marker);
  }

  /**
   * The content holds a TRANSP line, and every line named TRANSP says OPAQUE
   * when the event is busy and TRANSPARENT otherwise.
   */
  lemma EventTransparency(ev: EventRequest, form: FormFields, entropy: Entropy, i: int)
    requires !ev.date.NotADate?
    requires 0 <= i < |EventContent(ev, form, entropy)| && Named(EventContent(ev, form, entropy)[i], "TRANSP:")
    ensures EventContent(ev, form, entropy)[i] == if IsBusy(ev, form) then "TRANSP:OPAQUE" else "TRANSP:TRANSPARENT"
  {
    PropertiesWellNamed(ev, form, entropy);
    LayoutTranspOnce(Properties(ev, form, entropy));
    TranspLineValues(ev, form);
  }

  /**
   * The two Outlook status lines follow the TRANSP line and agree with it:
   * BUSY exactly when the event is OPAQUE, FREE exactly when it is TRANSPARENT.
   */
  lemma EventBusyStatus(ev: EventRequest, form: FormFields, entropy: Entropy)
    requires !ev.date.NotADate?
    ensures var c := EventContent(ev, form, entropy);
      && |c| > 13
      && (c[11] == "TRANSP:OPAQUE" <==> c[12] == "X-MICROSOFT-CDO-BUSYSTATUS:BUSY")
      && (c[11] == "TRANSP:TRANSPARENT" <==> c[12] == "X-MICROSOFT-CDO-BUSYSTATUS:FREE")
      && (c[11] == "TRANSP:OPAQUE" <==> c[13] == "X-MICROSOFT-CDO-INTENDEDSTATUS:BUSY")
      && (c[11] == "TRANSP:TRANSPARENT" <==> c[13] == "X-MICROSOFT-CDO-INTENDEDSTATUS:FREE")
  {
    var p := Properties(ev, form, entropy);
    StatusPositions(p);
    TranspLineValues(ev, form);
    StatusLineValues(ev, form);
  }

  lemma StatusLineValues(ev: EventRequest, form: FormFields)
    ensures BusyStatusLine(ev, form) == if IsBusy(ev, form) then "X-MICROSOFT-CDO-BUSYSTATUS:BUSY" else "X-MICROSOFT-CDO-BUSYSTATUS:FREE"
    ensures IntendedStatusLine(ev, form) == if IsBusy(ev, form) then "X-MICROSOFT-CDO-INTENDEDSTATUS:BUSY" else "X-MICROSOFT-CDO-INTENDEDSTATUS:FREE"
  {
  }

  lemma TranspLineValues(ev: EventRequest, form: FormFields)
    ensures TranspLine(ev, form) == if IsBusy(ev, form) then "TRANSP:OPAQUE" else "TRANSP:TRANSPARENT"
  {
  }

  lemma EventHasTransp(ev: EventRequest, form: FormFields, entropy: Entropy)
    requires !ev.date.NotADate?
    ensures |EventContent(ev, form, entropy)| > 11 && Named(EventContent(ev, form, entropy)[11], "TRANSP:")
  {
    PropertiesWellNamed(ev, form, entropy);
    LayoutTranspOnce(Properties(ev, form, entropy));
  }

  /** A line named LOCATION appears only for a main event with a non-empty location, and carries it. */
  lemma EventLocation(ev: EventRequest, form: FormFields, entropy: Entropy, i: int)
    requires !ev.date.NotADate?
    requires 0 <= i < |EventContent(ev, form, entropy)| && Named(EventContent(ev, form, entropy)[i], "LOCATION:")
    ensures HasLocation(ev) && EventContent(ev, form, entropy)[i] == "LOCATION:" + ev.location
  {
    PropertiesWellNamed(ev, form, entropy);
    LayoutLocationOnce(Properties(ev, form, entropy));
  }

  /** A main event with a non-empty location gets its LOCATION line after ORGANIZER. */
  lemma EventHasLocation(ev: EventRequest, form: FormFields, entropy: Entropy)
    requires !ev.date.NotADate? && HasLocation(ev)
    ensures |EventContent(ev, form, entropy)| > 16
    ensures EventContent(ev, form, entropy)[16] == "LOCATION:" + ev.location
  {
    LayoutLocationOnce(Properties(ev, form, entropy));
  }
}
