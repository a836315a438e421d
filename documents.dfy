/**
 * The calendar documents: `generateTimezoneDefinition`, the VTIMEZONE
 * component of the configured zone, and the two assemblers that wrap event
 * blocks in a VCALENDAR (section 3.4 of RFC 5545):
 * `generateCombinedICSContent` for every event of a case in one file and
 * `generateICSContent` for one event per file. The array of physical lines
 * is joined with CRLF.
 */
module Documents {
  import opened Wrappers
  import opened JsText
  import opened Folding
  import opened Calendar
  import opened Timestamps
  import opened EventLayout
  import opened Events
  import Config

  /** The five lines that open every document. */
  const CalendarHeader: seq<string> :=
    ["BEGIN:VCALENDAR", "VERSION:2.0", "PRODID:" + Config.ProductId, "CALSCALE:GREGORIAN", "METHOD:PUBLISH"]

  const CalendarEnd: string := "END:VCALENDAR"

  /** The zone's identification: its TZID, its tzurl.org address and its location. */
  const ZoneIdentity: seq<string> :=
    ["BEGIN:VTIMEZONE", "TZID:" + Config.TimeZone, "TZURL:http://tzurl.org/zoneinfo/" + Config.TimeZone,
     "X-LIC-LOCATION:" + Config.TimeZone]

  /** Daylight time: UTC-5 from 02:00 on the second Sunday of March, starting in 1970. */
  const DaylightRule: seq<string> :=
    ["BEGIN:DAYLIGHT", "TZOFFSETFROM:-0600", "TZOFFSETTO:-0500", "TZNAME:" + Config.DaylightAbbreviation,
     "DTSTART:19700308T020000", "RRULE:FREQ=YEARLY;BYMONTH=3;BYDAY=2SU", "END:DAYLIGHT"]

  /** Standard time: UTC-6 from 02:00 on the first Sunday of November, starting in 1970. */
  const StandardRule: seq<string> :=
    ["BEGIN:STANDARD", "TZOFFSETFROM:-0500", "TZOFFSETTO:-0600", "TZNAME:" + Config.StandardAbbreviation,
     "DTSTART:19701101T020000", "RRULE:FREQ=YEARLY;BYMONTH=11;BYDAY=1SU", "END:STANDARD"]

  /** `generateTimezoneDefinition`: nineteen lines, always the same. */
  const TimezoneDefinition: seq<string> := ZoneIdentity + DaylightRule + StandardRule + ["END:VTIMEZONE"]

  /** The onsets the two DTSTART lines name, as fields (months 0-based). */
  const DaylightOnset: Moment := DateTime(1970, 2, 8, 2, 0, 0, 0)
  const StandardOnset: Moment := DateTime(1970, 10, 1, 2, 0, 0, 0)

  /** One entry of the list `processForm` builds: the deadline or one of its reminders. */
  datatype GeneratedEvent = GeneratedEvent(
    date: DateValue, summary: string, description: string, filenameSuffix: string, location: string)

  /** Only the entry whose suffix is "Deadline" is composed as the main event. */
  predicate IsMainEvent(e: GeneratedEvent) {
    e.filenameSuffix == "Deadline"
  }

  /** The arguments the combined assembler hands `generateICSEvent` for one entry. */
  function RequestOf(e: GeneratedEvent, priority: string): EventRequest {
    EventRequest(e.date, e.summary, e.description, priority, IsMainEvent(e), e.location)
  }

  /** What composing one event yields: its physical lines, or the error it throws. */
  type Block = Result<seq<string>, Error>

  /** Each entry composed in turn; the k-th entry draws `entropy(k)`. */
  function Composed(events: seq<GeneratedEvent>, priority: string, form: FormFields, entropy: nat -> Entropy)
    : (r: seq<Block>)
    ensures |r| == |events|
  {
    seq(|events|, k requires 0 <= k < |events| => EventLines(RequestOf(events[k], priority), form, entropy(k)))
  }

  /** Each entry's content lines before folding (none for an entry that is not a `Date`). */
  function Contents(events: seq<GeneratedEvent>, priority: string, form: FormFields, entropy: nat -> Entropy)
    : (r: seq<seq<string>>)
    ensures |r| == |events|
  {
    seq(|events|, k requires 0 <= k < |events| =>
      if events[k].date.NotADate? then [] else EventContent(RequestOf(events[k], priority), form, entropy(k)))
  }

  /** The blocks spread one after the other; the first failure aborts the whole list. */
  function Concat(blocks: seq<Block>): Block
    decreases |blocks|
  {
    if blocks == [] then Success([])
    else
      var n := |blocks| - 1;
      match Concat(blocks[..n])
      case Failure(e) => Failure(e)
      case Success(prefix) =>
        match blocks[n]
        case Failure(e) => Failure(e)
        case Success(block) => Success(prefix + block)
  }

  function Flatten(parts: seq<seq<string>>): seq<string>
    decreases |parts|
  {
    if parts == [] then [] else Flatten(parts[..|parts| - 1]) + parts[|parts| - 1]
  }

  function EventBlocks(events: seq<GeneratedEvent>, priority: string, form: FormFields, entropy: nat -> Entropy)
    : Block
  {
    Concat(Composed(events, priority, form, entropy))
  }

  /** Header, zone, the given event lines, and the closing line. */
  function Envelope(blocks: seq<string>): seq<string> {
    CalendarHeader + TimezoneDefinition + blocks + [CalendarEnd]
  }

  function CombinedLines(events: seq<GeneratedEvent>, priority: string, form: FormFields, entropy: nat -> Entropy)
    : Result<seq<string>, Error>
  {
    match EventBlocks(events, priority, form, entropy)
    case Failure(e) => Failure(e)
    case Success(blocks) => Success(Envelope(blocks))
  }

  /** What `generateCombinedICSContent` returns, or the error it throws. */
  function CombinedContent(events: seq<GeneratedEvent>, priority: string, form: FormFields, entropy: nat -> Entropy)
    : Result<string, Error>
  {
    match CombinedLines(events, priority, form, entropy)
    case Failure(e) => Failure(e)
    case Success(lines) => Success(Join(lines, "\r\n"))
  }

  function SingleLines(ev: EventRequest, form: FormFields, entropy: Entropy): Result<seq<string>, Error> {
    match EventLines(ev, form, entropy)
    case Failure(e) => Failure(e)
    case Success(block) => Success(Envelope(block))
  }

  /** What `generateICSContent` returns, or the error it throws. */
  function SingleContent(ev: EventRequest, form: FormFields, entropy: Entropy): Result<string, Error> {
    match SingleLines(ev, form, entropy)
    case Failure(e) => Failure(e)
    case Success(lines) => Success(Join(lines, "\r\n"))
  }

  /**
   * `generateCombinedICSContent`: each event's lines are pushed in turn after
   * the header and zone, then the closing line; a throwing event aborts.
   */
  method GenerateCombinedContent(events: seq<GeneratedEvent>, priority: string, form: FormFields, entropy: nat -> Entropy)
    returns (r: Result<string, Error>)
    ensures r == CombinedContent(events, priority, form, entropy)
  {
    ghost var blocks := Composed(events, priority, form, entropy);
    var body := [];
    var i := 0;
    while i < |events|
      invariant 0 <= i <= |events|
      invariant Concat(blocks[..i]) == Success(body)
    {
      var block := ComposeEvent(RequestOf(events[i], priority), form, entropy(i));
      assert block == blocks[i];
      ConcatSnoc(blocks, i);
      if block.Failure? {
        ConcatFailureExtends(blocks, i + 1);
        return Failure(block.error);
      }
      body := body + block.value;
      i := i + 1;
    }
    assert blocks[..i] == blocks;
    r := Success(Join(Envelope(body), "\r\n"));
  }

  /** `generateICSContent`: the same envelope around one event. */
  method GenerateContent(ev: EventRequest, form: FormFields, entropy: Entropy) returns (r: Result<string, Error>)
    ensures r == SingleContent(ev, form, entropy)
  {
    var block := ComposeEvent(ev, form, entropy);
    if block.Failure? {
      return Failure(block.error);
    }
    r := Success(Join(Envelope(block.value), "\r\n"));
  }

  /** One more block: the concatenation so far, extended by it or aborted by it. */
  lemma ConcatSnoc(blocks: seq<Block>, i: nat)
    requires i < |blocks| && Concat(blocks[..i]).Success?
    ensures blocks[i].Failure? ==> Concat(blocks[..i + 1]) == blocks[i]
    ensures blocks[i].Success? ==> Concat(blocks[..i + 1]) == Success(Concat(blocks[..i]).value + blocks[i].value)
  {
    assert blocks[..i + 1][..i] == blocks[..i];
  }

  /** Once a prefix of the list fails, the whole list fails with the same error. */
  lemma {:induction false} ConcatFailureExtends(blocks: seq<Block>, k: nat)
    requires k <= |blocks|
    requires Concat(blocks[..k]).Failure?
    ensures Concat(blocks) == Concat(blocks[..k])
    decreases |blocks| - k
  {
    if k < |blocks| {
      assert blocks[..k + 1][..k] == blocks[..k];
      ConcatFailureExtends(blocks, k + 1);
    } else {
      assert blocks[..k] == blocks;
    }
  }

  /** The concatenation fails exactly when one of the blocks does. */
  lemma {:induction false} ConcatFailsIff(blocks: seq<Block>)
    ensures Concat(blocks).Failure? <==> exists k :: 0 <= k < |blocks| && blocks[k].Failure?
    decreases |blocks|
  {
    if blocks != [] {
      var n := |blocks| - 1;
      var init := blocks[..n];
      ConcatFailsIff(init);
      if exists k :: 0 <= k < |init| && init[k].Failure? {
        var k :| 0 <= k < |init| && init[k].Failure?;
        assert blocks[k] == init[k];
      }
      if exists k :: 0 <= k < |blocks| && blocks[k].Failure? {
        var k :| 0 <= k < |blocks| && blocks[k].Failure?;
        if k < n {
          assert init[k] == blocks[k];
        }
      }
    }
  }

  /** The combined document fails exactly when some entry's date is not a `Date`. */
  lemma CombinedFailsIff(events: seq<GeneratedEvent>, priority: string, form: FormFields, entropy: nat -> Entropy)
    ensures CombinedContent(events, priority, form, entropy).Failure?
      <==> exists k :: 0 <= k < |events| && events[k].date.NotADate?
  {
    var blocks := Composed(events, priority, form, entropy);
    ConcatFailsIff(blocks);
    forall k | 0 <= k < |events|
      ensures blocks[k].Failure? <==> events[k].date.NotADate?
    {
      BlockFailsIff(events, priority, form, entropy, k);
    }
  }

  lemma BlockFailsIff(events: seq<GeneratedEvent>, priority: string, form: FormFields, entropy: nat -> Entropy, k: nat)
    requires k < |events|
    ensures Composed(events, priority, form, entropy)[k].Failure? <==> events[k].date.NotADate?
  {
    var ev := RequestOf(events[k], priority);
    assert Composed(events, priority, form, entropy)[k] == EventLines(ev, form, entropy(k));
  }

  /** When every block holds `c` copies of a line, the concatenation of n blocks holds n times `c`. */
  lemma {:induction false} ConcatCount(blocks: seq<Block>, marker: string, c: nat)
    requires forall k :: 0 <= k < |blocks| && blocks[k].Success? ==> multiset(blocks[k].value)[marker] == c
    ensures Concat(blocks).Success? ==> multiset(Concat(blocks).value)[marker] == |blocks| * c
    decreases |blocks|
  {
    if blocks != [] {
      var n := |blocks| - 1;
      assert forall k :: 0 <= k < n ==> blocks[..n][k] == blocks[k];
      ConcatCount(blocks[..n], marker, c);
      if Concat(blocks).Success? {
        var prefix := Concat(blocks[..n]).value;
        assert Concat(blocks).value == prefix + blocks[n].value;
        assert multiset(prefix + blocks[n].value) == multiset(prefix) + multiset(blocks[n].value);
        MultiplySuccessor(n, c);
      }
    }
  }

  lemma MultiplySuccessor(n: nat, c: nat)
    ensures (n + 1) * c == n * c + c
  {
  }

  /**
   * When every block is the folding of its content lines, the concatenation
   * is the folding of all the content lines, in order.
   */
  lemma {:induction false} ConcatFolded(blocks: seq<Block>, parts: seq<seq<string>>)
    requires |parts| == |blocks|
    requires forall k :: 0 <= k < |blocks| && blocks[k].Success? ==> blocks[k].value == FoldAll(parts[k])
    requires forall k, i :: 0 <= k < |parts| && 0 <= i < |parts[k]| ==> !IsContinuation(parts[k][i])
    ensures Concat(blocks).Success? ==> Concat(blocks).value == FoldAll(Flatten(parts))
    ensures forall i :: 0 <= i < |Flatten(parts)| ==> !IsContinuation(Flatten(parts)[i])
    decreases |blocks|
  {
    if blocks != [] {
      var n := |blocks| - 1;
      ConcatFolded(blocks[..n], parts[..n]);
      FoldAllAppend(Flatten(parts[..n]), parts[n]);
      assert parts[..n] == parts[..|parts| - 1];
      var whole := Flatten(parts);
      assert whole == Flatten(parts[..n]) + parts[n];
      forall i | 0 <= i < |whole|
        ensures !IsContinuation(whole[i])
      {
        if i >= |Flatten(parts[..n])| {
          assert whole[i] == parts[n][i - |Flatten(parts[..n])|];
        }
      }
    }
  }

  /** Every line of the envelope fits on one physical line and none looks like a continuation. */
  lemma EnvelopeLinesFit()
    ensures forall i :: 0 <= i < |CalendarHeader + TimezoneDefinition| ==>
      |(CalendarHeader + TimezoneDefinition)[i]| <= MaxLineLength
      && !IsContinuation((CalendarHeader + TimezoneDefinition)[i])
  {
  }

  /** Lines that fit are left unchanged by folding. */
  lemma {:induction false} FoldAllFitting(contentLines: seq<string>)
    requires forall i :: 0 <= i < |contentLines| ==> |contentLines[i]| <= MaxLineLength
    ensures FoldAll(contentLines) == contentLines
    decreases |contentLines|
  {
    if contentLines != [] {
      FoldAllFitting(contentLines[1..]);
    }
  }

  /**
   * Folded content between fixed lines that fit: the whole is the folding of
   * head, content and tail, so it unfolds back to them.
   */
  lemma Wrapped(head: seq<string>, content: seq<string>, tail: seq<string>)
    requires forall i :: 0 <= i < |head| ==> |head[i]| <= MaxLineLength && !IsContinuation(head[i])
    requires forall i :: 0 <= i < |tail| ==> |tail[i]| <= MaxLineLength && !IsContinuation(tail[i])
    requires forall i :: 0 <= i < |content| ==> !IsContinuation(content[i])
    ensures forall i :: 0 <= i < |head + FoldAll(content) + tail| ==> |(head + FoldAll(content) + tail)[i]| <= MaxLineLength
    ensures UnfoldLines(head + FoldAll(content) + tail) == head + content + tail
  {
    var whole := head + content + tail;
    FoldAllFitting(head);
    FoldAllFitting(tail);
    FoldAllAppend(head, content);
    FoldAllAppend(head + content, tail);
    assert FoldAll(whole) == head + FoldAll(content) + tail;
    FoldAllBounded(whole);
    assert forall i :: 0 <= i < |whole| ==> !IsContinuation(whole[i]) by {
      forall i | 0 <= i < |whole|
        ensures !IsContinuation(whole[i])
      {
        if i < |head| {
          assert whole[i] == head[i];
        } else if i < |head| + |content| {
          assert whole[i] == content[i - |head|];
        } else {
          assert whole[i] == tail[i - |head| - |content|];
        }
      }
    }
    UnfoldFoldAll(whole);
  }

  /**
   * The combined document folds to lines of at most 75 characters, and
   * unfolding them gives back the header, the zone, each event's content
   * lines in order, and the closing line.
   */
  lemma CombinedFolding(
    events: seq<GeneratedEvent>, priority: string, form: FormFields, entropy: nat -> Entropy, lines: seq<string>)
    requires CombinedLines(events, priority, form, entropy) == Success(lines)
    ensures forall i :: 0 <= i < |lines| ==> |lines[i]| <= MaxLineLength
    ensures UnfoldLines(lines) == Envelope(Flatten(Contents(events, priority, form, entropy)))
  {
    var blocks := Composed(events, priority, form, entropy);
    var parts := Contents(events, priority, form, entropy);
    BlocksFolded(events, priority, form, entropy);
    EnvelopeLinesFit();
    Wrapped(CalendarHeader + TimezoneDefinition, Flatten(parts), [CalendarEnd]);
  }

  /** Each event's block is the folding of its content lines, which hold no continuation line. */
  lemma BlocksFolded(events: seq<GeneratedEvent>, priority: string, form: FormFields, entropy: nat -> Entropy)
    ensures var blocks := Composed(events, priority, form, entropy);
      Concat(blocks).Success? ==> Concat(blocks).value == FoldAll(Flatten(Contents(events, priority, form, entropy)))
    ensures var parts := Contents(events, priority, form, entropy);
      forall i :: 0 <= i < |Flatten(parts)| ==> !IsContinuation(Flatten(parts)[i])
  {
    var blocks := Composed(events, priority, form, entropy);
    var parts := Contents(events, priority, form, entropy);
    forall k | 0 <= k < |blocks|
      ensures blocks[k].Success? ==> blocks[k].value == FoldAll(parts[k])
      ensures forall i :: 0 <= i < |parts[k]| ==> !IsContinuation(parts[k][i])
    {
      assert blocks[k] == EventLines(RequestOf(events[k], priority), form, entropy(k));
      if !events[k].date.NotADate? {
        assert parts[k] == EventContent(RequestOf(events[k], priority), form, entropy(k));
        EventIsFolded(RequestOf(events[k], priority), form, entropy(k), blocks[k].value);
      }
    }
    ConcatFolded(blocks, parts);
  }

  /** The single-event document is the combined document of a one-entry list. */
  lemma SingleIsCombinedOfOne(e: GeneratedEvent, priority: string, form: FormFields, entropy: nat -> Entropy)
    ensures SingleContent(RequestOf(e, priority), form, entropy(0)) == CombinedContent([e], priority, form, entropy)
  {
    SingleLinesAreCombined(e, priority, form, entropy);
  }

  lemma SingleLinesAreCombined(e: GeneratedEvent, priority: string, form: FormFields, entropy: nat -> Entropy)
    ensures SingleLines(RequestOf(e, priority), form, entropy(0)) == CombinedLines([e], priority, form, entropy)
  {
    var block := EventLines(RequestOf(e, priority), form, entropy(0));
    var blocks := Composed([e], priority, form, entropy);
    assert blocks == [block];
    ConcatOne(block);
  }

  lemma ConcatOne(block: Block)
    ensures Concat([block]) == block
  {
    assert [block][..0] == [];
    if block.Success? {
      assert [] + block.value == block.value;
    }
  }

  /** How often a component delimiter occurs in the envelope: once for each of its eight. */
  function EnvelopeOccurrences(marker: string): nat {
    (if marker == "BEGIN:VCALENDAR" then 1 else 0) + ZoneOccurrences(marker) + (if marker == "END:VCALENDAR" then 1 else 0)
  }

  function ZoneOccurrences(marker: string): nat {
    (if marker == "BEGIN:VTIMEZONE" then 1 else 0) + DaylightOccurrences(marker) + StandardOccurrences(marker)
    + (if marker == "END:VTIMEZONE" then 1 else 0)
  }

  function DaylightOccurrences(marker: string): nat {
    (if marker == "BEGIN:DAYLIGHT" then 1 else 0) + (if marker == "END:DAYLIGHT" then 1 else 0)
  }

  function StandardOccurrences(marker: string): nat {
    (if marker == "BEGIN:STANDARD" then 1 else 0) + (if marker == "END:STANDARD" then 1 else 0)
  }

  lemma HeaderCount(marker: string)
    requires marker != [] && (marker[0] == 'B' || marker[0] == 'E')
    ensures multiset(CalendarHeader)[marker] == if marker == "BEGIN:VCALENDAR" then 1 else 0
  {
  }

  lemma ZoneIdentityCount(marker: string)
    requires marker != [] && (marker[0] == 'B' || marker[0] == 'E')
    ensures multiset(ZoneIdentity)[marker] == if marker == "BEGIN:VTIMEZONE" then 1 else 0
  {
  }

  lemma DaylightCount(marker: string)
    requires marker != [] && (marker[0] == 'B' || marker[0] == 'E')
    ensures multiset(DaylightRule)[marker] == DaylightOccurrences(marker)
  {
  }

  lemma StandardCount(marker: string)
    requires marker != [] && (marker[0] == 'B' || marker[0] == 'E')
    ensures multiset(StandardRule)[marker] == StandardOccurrences(marker)
  {
  }

  /** The zone definition holds its own delimiters and those of its two rules, once each. */
  lemma ZoneCount(marker: string)
    requires marker != [] && (marker[0] == 'B' || marker[0] == 'E')
    ensures multiset(TimezoneDefinition)[marker] == ZoneOccurrences(marker)
  {
    ZoneIdentityCount(marker);
    DaylightCount(marker);
    StandardCount(marker);
    CountOfParts(ZoneIdentity, DaylightRule, StandardRule, ["END:VTIMEZONE"], marker);
  }

  /** Of the envelope's lines beginning with `B` or `E`, each delimiter of its components occurs once. */
  lemma EnvelopeCount(marker: string)
    requires marker != [] && (marker[0] == 'B' || marker[0] == 'E')
    ensures multiset(CalendarHeader + TimezoneDefinition + [CalendarEnd])[marker] == EnvelopeOccurrences(marker)
  {
    HeaderCount(marker);
    ZoneCount(marker);
    CountOfThree(CalendarHeader, TimezoneDefinition, [CalendarEnd], marker);
  }

  lemma CountOfThree(a: seq<string>, b: seq<string>, c: seq<string>, x: string)
    ensures multiset(a + b + c)[x] == multiset(a)[x] + multiset(b)[x] + multiset(c)[x]
  {
    assert multiset(a + b + c) == multiset(a) + multiset(b) + multiset(c);
  }

  lemma CountOfParts(a: seq<string>, b: seq<string>, c: seq<string>, d: seq<string>, x: string)
    ensures multiset(a + b + c + d)[x] == multiset(a)[x] + multiset(b)[x] + multiset(c)[x] + multiset(d)[x]
  {
    assert multiset(a + b + c + d) == multiset(a) + multiset(b) + multiset(c) + multiset(d);
  }

  /** Each event's block holds its delimiters once, so the blocks hold them once per event. */
  lemma BlocksMarkerCount(events: seq<GeneratedEvent>, priority: string, form: FormFields, entropy: nat -> Entropy,
    marker: string)
    requires 0 < |marker| < MaxLineLength && (marker[0] == 'B' || marker[0] == 'E')
    ensures var blocks := EventBlocks(events, priority, form, entropy);
      blocks.Success? ==> multiset(blocks.value)[marker] == |events| * DelimiterOccurrences(marker)
  {
    var blocks := Composed(events, priority, form, entropy);
    forall k | 0 <= k < |blocks| && blocks[k].Success?
      ensures multiset(blocks[k].value)[marker] == DelimiterOccurrences(marker)
    {
      assert blocks[k] == EventLines(RequestOf(events[k], priority), form, entropy(k));
      EventMarkerCount(RequestOf(events[k], priority), form, entropy(k), blocks[k].value, marker);
    }
    ConcatCount(blocks, marker, DelimiterOccurrences(marker));
  }

  /**
   * A line of the combined document that starts with `B` or `E` is a
   * delimiter: the envelope's occur once, each event's once per event.
   */
  lemma CombinedMarkerCount(
    events: seq<GeneratedEvent>, priority: string, form: FormFields, entropy: nat -> Entropy, lines: seq<string>,
    marker: string)
    requires CombinedLines(events, priority, form, entropy) == Success(lines)
    requires 0 < |marker| < MaxLineLength && (marker[0] == 'B' || marker[0] == 'E')
    ensures multiset(lines)[marker] == EnvelopeOccurrences(marker) + |events| * DelimiterOccurrences(marker)
  {
    BlocksMarkerCount(events, priority, form, entropy, marker);
    EnvelopeCount(marker);
    var body := EventBlocks(events, priority, form, entropy).value;
    WrappedCount(CalendarHeader + TimezoneDefinition, body, [CalendarEnd], marker);
  }

  lemma WrappedCount(head: seq<string>, body: seq<string>, tail: seq<string>, x: string)
    ensures multiset(head + body + tail)[x] == multiset(head + tail)[x] + multiset(body)[x]
  {
    assert multiset(head + body + tail) == multiset(head) + multiset(body) + multiset(tail);
  }

  lemma EnvelopeDelimiterValues()
    ensures EnvelopeOccurrences("BEGIN:VCALENDAR") == 1 && EnvelopeOccurrences("END:VCALENDAR") == 1
    ensures EnvelopeOccurrences("BEGIN:VTIMEZONE") == 1 && EnvelopeOccurrences("END:VTIMEZONE") == 1
    ensures DelimiterOccurrences("BEGIN:VCALENDAR") == 0 && DelimiterOccurrences("END:VCALENDAR") == 0
    ensures DelimiterOccurrences("BEGIN:VTIMEZONE") == 0 && DelimiterOccurrences("END:VTIMEZONE") == 0
  {
  }

  lemma EventDelimiterValues()
    ensures EnvelopeOccurrences("BEGIN:VEVENT") == 0 && EnvelopeOccurrences("END:VEVENT") == 0
    ensures EnvelopeOccurrences("BEGIN:VALARM") == 0 && EnvelopeOccurrences("END:VALARM") == 0
    ensures DelimiterOccurrences("BEGIN:VEVENT") == 1 && DelimiterOccurrences("END:VEVENT") == 1
    ensures DelimiterOccurrences("BEGIN:VALARM") == 1 && DelimiterOccurrences("END:VALARM") == 1
  {
  }

  /** The combined document is one calendar holding one zone definition. */
  lemma CombinedEnvelope(
    events: seq<GeneratedEvent>, priority: string, form: FormFields, entropy: nat -> Entropy, lines: seq<string>)
    requires CombinedLines(events, priority, form, entropy) == Success(lines)
    ensures multiset(lines)["BEGIN:VCALENDAR"] == 1 && multiset(lines)["END:VCALENDAR"] == 1
    ensures multiset(lines)["BEGIN:VTIMEZONE"] == 1 && multiset(lines)["END:VTIMEZONE"] == 1
  {
    EnvelopeDelimiterValues();
    CombinedMarkerCount(events, priority, form, entropy, lines, "BEGIN:VCALENDAR");
    CombinedMarkerCount(events, priority, form, entropy, lines, "END:VCALENDAR");
    CombinedMarkerCount(events, priority, form, entropy, lines, "BEGIN:VTIMEZONE");
    CombinedMarkerCount(events, priority, form, entropy, lines, "END:VTIMEZONE");
  }

  /** The combined document holds one VEVENT, and in it one VALARM, per entry. */
  lemma CombinedEvents(
    events: seq<GeneratedEvent>, priority: string, form: FormFields, entropy: nat -> Entropy, lines: seq<string>)
    requires CombinedLines(events, priority, form, entropy) == Success(lines)
    ensures multiset(lines)["BEGIN:VEVENT"] == |events| && multiset(lines)["END:VEVENT"] == |events|
    ensures multiset(lines)["BEGIN:VALARM"] == |events| && multiset(lines)["END:VALARM"] == |events|
  {
    CombinedVevents(events, priority, form, entropy, lines);
    CombinedValarms(events, priority, form, entropy, lines);
  }

  lemma CombinedVevents(
    events: seq<GeneratedEvent>, priority: string, form: FormFields, entropy: nat -> Entropy, lines: seq<string>)
    requires CombinedLines(events, priority, form, entropy) == Success(lines)
    ensures multiset(lines)["BEGIN:VEVENT"] == |events| && multiset(lines)["END:VEVENT"] == |events|
  {
    EventDelimiterValues();
    OncePerEvent(events, priority, form, entropy, lines, "BEGIN:VEVENT");
    OncePerEvent(events, priority, form, entropy, lines, "END:VEVENT");
  }

  lemma CombinedValarms(
    events: seq<GeneratedEvent>, priority: string, form: FormFields, entropy: nat -> Entropy, lines: seq<string>)
    requires CombinedLines(events, priority, form, entropy) == Success(lines)
    ensures multiset(lines)["BEGIN:VALARM"] == |events| && multiset(lines)["END:VALARM"] == |events|
  {
    EventDelimiterValues();
    OncePerEvent(events, priority, form, entropy, lines, "BEGIN:VALARM");
    OncePerEvent(events, priority, form, entropy, lines, "END:VALARM");
  }

  /** A marker that only the event blocks hold, once each, occurs once per event. */
  lemma OncePerEvent(
    events: seq<GeneratedEvent>, priority: string, form: FormFields, entropy: nat -> Entropy, lines: seq<string>,
    marker: string)
    requires CombinedLines(events, priority, form, entropy) == Success(lines)
    requires 0 < |marker| < MaxLineLength && (marker[0] == 'B' || marker[0] == 'E')
    requires EnvelopeOccurrences(marker) == 0 && DelimiterOccurrences(marker) == 1
    ensures multiset(lines)[marker] == |events|
  {
    CombinedMarkerCount(events, priority, form, entropy, lines, marker);
  }

  /**
   * The daylight rule's DTSTART is 02:00 on the second Sunday of March 1970,
   * the first instant its RRULE (BYMONTH=3, BYDAY=2SU) selects.
   */
  lemma DaylightOnsetMatchesRule()
    ensures DaylightRule[4] == "DTSTART:" + Stamp(DaylightOnset)
    ensures DaylightOnset.month + 1 == 3 && 7 < DaylightOnset.day <= 14
    ensures WeekDay(DayNumber(DaylightOnset.year, DaylightOnset.month, DaylightOnset.day)) == 0
  {
    DaylightStamp();
    SundayOnset(DaylightOnset, 66);
  }

  lemma DaylightStamp()
    ensures DaylightRule[4] == "DTSTART:" + Stamp(DaylightOnset)
  {
    DaylightStampValue();
    DaylightStartLine();
  }

  lemma DaylightStartLine()
    ensures DaylightRule[4] == "DTSTART:" + "19700308T020000"
  {
  }

  lemma DaylightStampValue()
    ensures Stamp(DaylightOnset) == "19700308T020000"
  {
    DaylightDateDigits();
    TwoAmDigits(DaylightOnset);
    assert "19700308" + "T" + "020000" == "19700308T020000";
  }

  lemma DaylightDateDigits()
    ensures DateDigits(DaylightOnset) == "19700308"
  {
    YearDigits1970();
    assert Pad2(3) == "03" && Pad2(8) == "08";
  }


  /**
   * The standard rule's DTSTART is 02:00 on the first Sunday of November
   * 1970, the first instant its RRULE (BYMONTH=11, BYDAY=1SU) selects.
   */
  lemma StandardOnsetMatchesRule()
    ensures StandardRule[4] == "DTSTART:" + Stamp(StandardOnset)
    ensures StandardOnset.month + 1 == 11 && 1 <= StandardOnset.day <= 7
    ensures WeekDay(DayNumber(StandardOnset.year, StandardOnset.month, StandardOnset.day)) == 0
  {
    StandardStamp();
    SundayOnset(StandardOnset, 304);
  }

  lemma StandardStamp()
    ensures StandardRule[4] == "DTSTART:" + Stamp(StandardOnset)
  {
    StandardStampValue();
    StandardStartLine();
  }

  lemma StandardStartLine()
    ensures StandardRule[4] == "DTSTART:" + "19701101T020000"
  {
  }

  lemma StandardStampValue()
    ensures Stamp(StandardOnset) == "19701101T020000"
  {
    StandardDateDigits();
    TwoAmDigits(StandardOnset);
    assert "19701101" + "T" + "020000" == "19701101T020000";
  }

  lemma StandardDateDigits()
    ensures DateDigits(StandardOnset) == "19701101"
  {
    YearDigits1970();
    assert Pad2(11) == "11" && Pad2(1) == "01";
  }


  lemma SundayOnset(t: Moment, dayNumber: int)
    requires t.year == 1970 && DayFromYear(1970) + MonthStart(1970, t.month) + t.day - 1 == dayNumber
    requires dayNumber % 7 == 3
    ensures WeekDay(DayNumber(t.year, t.month, t.day)) == 0
  {
  }

  lemma YearDigits1970()
    ensures IntToString(1970) == "1970"
  {
    assert Decimal(1) == "1";
    assert Decimal(19) == "19";
    assert Decimal(197) == "197";
  }

  lemma TwoAmDigits(t: Moment)
    requires t.hour == 2 && t.minute == 0 && t.second == 0
    ensures TimeDigits(t) == "020000"
  {
    assert Pad2(2) == "02" && Pad2(0) == "00";
  }
}
