/**
 * The line array of one VEVENT block (section 3.6.1 of RFC 5545) as
 * `generateICSEvent` writes it: fixed lines kept as they are, property lines
 * passed through `foldLine`, in a fixed order, ending with a fifteen-minute
 * display alarm (section 3.6.6).  Everything here is about already
 * formatted lines; the values in them are formatted in module Events.
 */
module EventLayout {
  import opened Wrappers
  import opened Folding
  /**
   * One element of the line array `generateICSEvent` builds: a fixed line the
   * source writes as it is, or a property line it passes through `foldLine`.
   */
  datatype Entry = Verbatim(text: string) | Property(text: string)

  /** The physical lines one entry contributes. */
  function Rendered(e: Entry): seq<string> {
    match e
    case Verbatim(text) => [text]
    case Property(text) => Folded(text)
  }

  /** The physical lines of a list of entries, in order. */
  function Render(entries: seq<Entry>): seq<string> {
    if entries == [] then [] else Render(entries[..|entries| - 1]) + Rendered(entries[|entries| - 1])
  }

  /** The content lines of a list of entries, before any folding. */
  function Texts(entries: seq<Entry>): (r: seq<string>)
    ensures |r| == |entries|
    ensures forall i :: 0 <= i < |entries| ==> r[i] == entries[i].text
  {
    if entries == [] then [] else Texts(entries[..|entries| - 1]) + [entries[|entries| - 1].text]
  }

  /** Every fixed line already fits on one physical line. */
  predicate VerbatimFits(entries: seq<Entry>) {
    forall i :: 0 <= i < |entries| && entries[i].Verbatim? ==> |entries[i].text| <= MaxLineLength
  }

  /** The property lines of one event, each already formatted but not yet folded. */
  datatype EventProperties = EventProperties(
    uid: string, stamp: string, start: string, end: string, summary: string, description: string,
    priority: string, transp: string, busy: string, intended: string, organizer: string,
    location: Option<string>)

  /**
   * The line array of one event, in the order the source lists it: fixed
   * lines verbatim, property lines to be folded, LOCATION only when present,
   * then the fixed display alarm and the end of the event.
   */
  function Layout(p: EventProperties): seq<Entry> {
    Opening(p) + Status(p) + LocationEntry(p) + AlarmEntries
  }

  function Opening(p: EventProperties): seq<Entry> {
    [ Verbatim("BEGIN:VEVENT"),
      Property(p.uid),
      Property(p.stamp),
      Property(p.start),
      Property(p.end),
      Property(p.summary),
      Property(p.description),
      Property(p.priority) ]
  }

  function Status(p: EventProperties): seq<Entry> {
    [ Verbatim("CLASS:PUBLIC"),
      Verbatim("STATUS:CONFIRMED"),
      Verbatim("SEQUENCE:0"),
      Property(p.transp),
      Property(p.busy),
      Property(p.intended),
      Verbatim("X-MICROSOFT-DISALLOW-COUNTER:FALSE"),
      Property(p.organizer) ]
  }

  function LocationEntry(p: EventProperties): seq<Entry> {
    if p.location.Some? then [Property(p.location.value)] else []
  }

  /** The fixed display alarm fifteen minutes before the start, and the end of the event. */
  const AlarmEntries: seq<Entry> := [
    Verbatim("BEGIN:VALARM"),
    Verbatim("ACTION:DISPLAY"),
    Verbatim("DESCRIPTION:Reminder"),
    Verbatim("TRIGGER;RELATED=START:-PT15M"),
    Verbatim("END:VALARM"),
    Verbatim("END:VEVENT") ]

  /** Appends each entry's physical lines in turn, folding the property lines with `foldLine`. */
  method RenderEntries(entries: seq<Entry>) returns (lines: seq<string>)
    ensures lines == Render(entries)
  {
    lines := [];
    for i := 0 to |entries|
      invariant lines == Render(entries[..i])
    {
      assert entries[..i + 1][..i] == entries[..i];
      match entries[i]
      case Verbatim(text) =>
        lines := lines + [text];
      case Property(text) =>
        var folded := FoldLine(text);
        lines := lines + folded;
    }
    assert entries[..|entries|] == entries;
  }

  lemma {:induction false} FoldAllSnoc(c: seq<string>, x: string)
    ensures FoldAll(c + [x]) == FoldAll(c) + Folded(x)
  {
    FoldAllAppend(c, [x]);
    assert [x][1..] == [];
  }

  lemma InitOfEntries(entries: seq<Entry>)
    requires entries != [] && VerbatimFits(entries)
    ensures VerbatimFits(entries[..|entries| - 1])
  {
    var init := entries[..|entries| - 1];
    forall i | 0 <= i < |init| && init[i].Verbatim?
      ensures |init[i].text| <= MaxLineLength
    {
      assert init[i] == entries[i];
    }
  }

  /** Rendering folds the property lines and leaves the fixed ones, which fit, as they are. */
  lemma {:induction false} RenderIsFoldAll(entries: seq<Entry>)
    requires VerbatimFits(entries)
    ensures Render(entries) == FoldAll(Texts(entries))
  {
    if entries != [] {
      var init := entries[..|entries| - 1];
      var last := entries[|entries| - 1];
      InitOfEntries(entries);
      RenderIsFoldAll(init);
      FoldAllSnoc(Texts(init), last.text);
      if last.Verbatim? {
        assert |last.text| <= MaxLineLength;
      }
    }
  }

  /**
   * A line of at most 74 characters that no property line equals occurs in
   * the rendered lines exactly as often as it is written verbatim.
   */
  lemma {:induction false} RenderCount(entries: seq<Entry>, marker: string)
    requires |marker| < MaxLineLength && !IsContinuation(marker)
    requires forall i :: 0 <= i < |entries| && entries[i].Property? ==> entries[i].text != marker
    ensures multiset(Render(entries))[marker] == multiset(entries)[Verbatim(marker)]
  {
    if entries != [] {
      var init := entries[..|entries| - 1];
      var last := entries[|entries| - 1];
      assert entries == init + [last];
      RenderCount(init, marker);
      if last.Property? {
        FoldedMarkerCount(last.text, marker);
      }
    }
  }

  /** Whether a line begins with the given property name. */
  predicate Named(line: string, name: string) {
    |name| <= |line| && line[..|name|] == name
  }

  /** Each property line begins with its property name and the name's separator. */
  predicate WellNamed(p: EventProperties) {
    && Named(p.uid, "UID:")
    && Named(p.stamp, "DTSTAMP:")
    && Named(p.start, "DTSTART;")
    && Named(p.end, "DTEND;")
    && Named(p.summary, "SUMMARY:")
    && Named(p.description, "DESCRIPTION:")
    && Named(p.priority, "PRIORITY:")
    && Named(p.transp, "TRANSP:")
    && Named(p.busy, "X-MICROSOFT-CDO-BUSYSTATUS:")
    && Named(p.intended, "X-MICROSOFT-CDO-INTENDEDSTATUS:")
    && Named(p.organizer, "ORGANIZER;")
    && (p.location.Some? ==> Named(p.location.value, "LOCATION:"))
  }

  /** A line made of a name and the rest starts with that name. */
  lemma NamedBy(name: string, rest: string)
    ensures Named(name + rest, name)
  {
    assert (name + rest)[..|name|] == name;
  }

  lemma LayoutFits(p: EventProperties)
    ensures VerbatimFits(Layout(p))
  {
  }

  lemma NamedInitial(line: string, name: string)
    requires Named(line, name) && |name| > 0
    ensures |line| > 0 && line[0] == name[0]
  {
    assert line[..|name|][0] == line[0];
  }

  /** The first character of each property line is the first letter of its name. */
  lemma Initials(p: EventProperties)
    requires WellNamed(p)
    ensures |p.uid| > 0 && p.uid[0] == 'U'
    ensures |p.stamp| > 0 && p.stamp[0] == 'D'
    ensures |p.start| > 0 && p.start[0] == 'D'
    ensures |p.end| > 0 && p.end[0] == 'D'
    ensures |p.summary| > 0 && p.summary[0] == 'S'
    ensures |p.description| > 0 && p.description[0] == 'D'
    ensures |p.priority| > 0 && p.priority[0] == 'P'
    ensures |p.transp| > 0 && p.transp[0] == 'T'
    ensures |p.busy| > 0 && p.busy[0] == 'X'
    ensures |p.intended| > 0 && p.intended[0] == 'X'
    ensures |p.organizer| > 0 && p.organizer[0] == 'O'
    ensures p.location.Some? ==> |p.location.value| > 0 && p.location.value[0] == 'L'
  {
    NamedInitial(p.uid, "UID:");
    NamedInitial(p.stamp, "DTSTAMP:");
    NamedInitial(p.start, "DTSTART;");
    NamedInitial(p.end, "DTEND;");
    NamedInitial(p.summary, "SUMMARY:");
    NamedInitial(p.description, "DESCRIPTION:");
    NamedInitial(p.priority, "PRIORITY:");
    NamedInitial(p.transp, "TRANSP:");
    NamedInitial(p.busy, "X-MICROSOFT-CDO-BUSYSTATUS:");
    NamedInitial(p.intended, "X-MICROSOFT-CDO-INTENDEDSTATUS:");
    NamedInitial(p.organizer, "ORGANIZER;");
    if p.location.Some? {
      NamedInitial(p.location.value, "LOCATION:");
    }
  }

  /** No line of the layout is empty or starts with the space that marks a continuation. */
  lemma LayoutStartsLines(p: EventProperties)
    requires WellNamed(p)
    ensures forall i :: 0 <= i < |Layout(p)| ==> !IsContinuation(Layout(p)[i].text) && Layout(p)[i].text != []
  {
    Initials(p);
  }

  /** No property line begins like a BEGIN or END delimiter. */
  lemma LayoutPropertyInitials(p: EventProperties)
    requires WellNamed(p)
    ensures forall i :: 0 <= i < |Layout(p)| && Layout(p)[i].Property? ==>
      Layout(p)[i].text != [] && Layout(p)[i].text[0] != 'B' && Layout(p)[i].text[0] != 'E'
  {
    Initials(p);
  }

  /** The layout opens the event once. */
  lemma LayoutBeginsOnce(p: EventProperties)
    ensures multiset(Layout(p))[Verbatim("BEGIN:VEVENT")] == 1
  {
    DelimiterCount(p, "BEGIN:VEVENT");
  }

  lemma DelimiterCount(p: EventProperties, marker: string)
    requires marker != [] && (marker[0] == 'B' || marker[0] == 'E')
    ensures multiset(Layout(p))[Verbatim(marker)]
      == (if marker == "BEGIN:VEVENT" then 1 else 0) + (if marker == "BEGIN:VALARM" then 1 else 0)
      + (if marker == "END:VALARM" then 1 else 0) + (if marker == "END:VEVENT" then 1 else 0)
  {
    OpeningCount(p, marker);
    StatusCount(p, marker);
    AlarmCount(marker);
  }

  lemma OpeningCount(p: EventProperties, marker: string)
    ensures multiset(Opening(p))[Verbatim(marker)] == if marker == "BEGIN:VEVENT" then 1 else 0
  {
  }

  lemma StatusCount(p: EventProperties, marker: string)
    requires marker != [] && (marker[0] == 'B' || marker[0] == 'E')
    ensures multiset(Status(p))[Verbatim(marker)] == 0
  {
    OtherInitial("CLASS:PUBLIC", marker);
    OtherInitial("STATUS:CONFIRMED", marker);
    OtherInitial("SEQUENCE:0", marker);
    OtherInitial("X-MICROSOFT-DISALLOW-COUNTER:FALSE", marker);
    assert Verbatim(marker) !in Status(p);
  }

  lemma OtherInitial(line: string, marker: string)
    requires line != [] && marker != [] && line[0] != 'B' && line[0] != 'E' && (marker[0] == 'B' || marker[0] == 'E')
    ensures Verbatim(line) != Verbatim(marker)
  {
  }

  lemma AlarmCount(marker: string)
    requires marker != [] && (marker[0] == 'B' || marker[0] == 'E')
    ensures multiset(AlarmEntries)[Verbatim(marker)]
      == (if marker == "BEGIN:VALARM" then 1 else 0) + (if marker == "END:VALARM" then 1 else 0)
      + (if marker == "END:VEVENT" then 1 else 0)
  {
  }

  /** The layout opens with BEGIN:VEVENT and closes with END:VEVENT. */
  lemma LayoutBounds(p: EventProperties)
    ensures |Layout(p)| >= 2
    ensures Layout(p)[0] == Verbatim("BEGIN:VEVENT")
    ensures Layout(p)[|Layout(p)| - 1] == Verbatim("END:VEVENT")
  {
  }

  /** The layout closes the event once. */
  lemma LayoutEndsOnce(p: EventProperties)
    ensures multiset(Layout(p))[Verbatim("END:VEVENT")] == 1
  {
    DelimiterCount(p, "END:VEVENT");
  }

  /** No entry of `s` is named `name`. */
  predicate NoneNamed(s: seq<Entry>, name: string) {
    forall i :: 0 <= i < |s| ==> !Named(s[i].text, name)
  }

  /** Entries that start with another letter than `name` are not named `name`. */
  lemma NoneNamedByInitial(s: seq<Entry>, name: string)
    requires |name| > 0
    requires forall i :: 0 <= i < |s| ==> s[i].text == [] || s[i].text[0] != name[0]
    ensures NoneNamed(s, name)
  {
    forall i | 0 <= i < |s| && Named(s[i].text, name)
      ensures false
    {
      NamedInitial(s[i].text, name);
    }
  }

  lemma NoneNamedAppend(a: seq<Entry>, b: seq<Entry>, name: string)
    requires NoneNamed(a, name) && NoneNamed(b, name)
    ensures NoneNamed(a + b, name)
  {
    forall i | 0 <= i < |a + b|
      ensures !Named((a + b)[i].text, name)
    {
      if i < |a| {
        assert (a + b)[i] == a[i];
      } else {
        assert (a + b)[i] == b[i - |a|];
      }
    }
  }

  lemma OpeningNames(p: EventProperties)
    requires WellNamed(p)
    ensures NoneNamed(Opening(p), "TRANSP:") && NoneNamed(Opening(p), "LOCATION:")
  {
    Initials(p);
    NoneNamedByInitial(Opening(p), "TRANSP:");
    NoneNamedByInitial(Opening(p), "LOCATION:");
  }

  lemma StatusNames(p: EventProperties)
    requires WellNamed(p)
    ensures NoneNamed(Status(p), "LOCATION:")
    ensures forall i :: 0 <= i < |Status(p)| && Named(Status(p)[i].text, "TRANSP:") ==> i == 3
  {
    Initials(p);
    NoneNamedByInitial(Status(p), "LOCATION:");
    forall i | 0 <= i < |Status(p)| && Named(Status(p)[i].text, "TRANSP:")
      ensures i == 3
    {
      NamedInitial(Status(p)[i].text, "TRANSP:");
    }
  }

  lemma AlarmNames()
    ensures NoneNamed(AlarmEntries, "TRANSP:") && NoneNamed(AlarmEntries, "LOCATION:")
  {
    forall i | 0 <= i < |AlarmEntries|
      ensures !Named(AlarmEntries[i].text, "TRANSP:") && !Named(AlarmEntries[i].text, "LOCATION:")
    {
      DiffersAt(AlarmEntries[i].text, "TRANSP:", 2);
      DiffersAt(AlarmEntries[i].text, "LOCATION:", 0);
    }
  }

  /** A line that differs from `name` at a position within both is not named `name`. */
  lemma DiffersAt(line: string, name: string, k: nat)
    requires k < |line| && k < |name| && line[k] != name[k]
    ensures !Named(line, name)
  {
  }

  lemma LocationNames(p: EventProperties)
    requires WellNamed(p)
    ensures NoneNamed(LocationEntry(p), "TRANSP:")
  {
    Initials(p);
    NoneNamedByInitial(LocationEntry(p), "TRANSP:");
  }

  /** Only the TRANSP property line is named TRANSP. */
  lemma LayoutTranspOnce(p: EventProperties)
    requires WellNamed(p)
    ensures forall i :: 0 <= i < |Layout(p)| && Named(Layout(p)[i].text, "TRANSP:") ==> i == 11
    ensures Layout(p)[11] == Property(p.transp)
  {
    OpeningNames(p);
    StatusNames(p);
    AlarmNames();
    LocationNames(p);
    NoneNamedAppend(LocationEntry(p), AlarmEntries, "TRANSP:");
    var tail := LocationEntry(p) + AlarmEntries;
    assert Layout(p) == Opening(p) + Status(p) + tail;
    forall i | 0 <= i < |Layout(p)| && Named(Layout(p)[i].text, "TRANSP:")
      ensures i == 11
    {
      if 8 <= i < 16 {
        assert Layout(p)[i] == Status(p)[i - 8];
      }
    }
  }

  /** Only the LOCATION entry is named LOCATION, and it is there exactly when the event has a location. */
  lemma LayoutLocationOnce(p: EventProperties)
    requires WellNamed(p)
    ensures forall i :: 0 <= i < |Layout(p)| && Named(Layout(p)[i].text, "LOCATION:") ==>
      p.location.Some? && i == 16
    ensures p.location.Some? ==> Layout(p)[16] == Property(p.location.value)
  {
    OpeningNames(p);
    StatusNames(p);
    AlarmNames();
    NoneNamedAppend(Opening(p), Status(p), "LOCATION:");
    var head := Opening(p) + Status(p);
    assert Layout(p) == head + LocationEntry(p) + AlarmEntries;
    forall i | 0 <= i < |Layout(p)| && Named(Layout(p)[i].text, "LOCATION:")
      ensures p.location.Some? && i == 16
    {
      if 16 <= i < 16 + |LocationEntry(p)| {
        assert Layout(p)[i] == LocationEntry(p)[i - 16];
      }
    }
  }

  /**
   * Every rendered line fits in 75 characters, and joining the continuations
   * back gives the content lines in order.
   */
  lemma LayoutFolding(p: EventProperties)
    requires WellNamed(p)
    ensures forall i :: 0 <= i < |Render(Layout(p))| ==> |Render(Layout(p))[i]| <= MaxLineLength
    ensures UnfoldLines(Render(Layout(p))) == Texts(Layout(p))
  {
    LayoutFits(p);
    RenderIsFoldAll(Layout(p));
    FoldAllBounded(Texts(Layout(p)));
    LayoutStartsLines(p);
    UnfoldFoldAll(Texts(Layout(p)));
  }

  /** The rendered block starts with BEGIN:VEVENT, ends with END:VEVENT, and holds each of them once. */
  lemma LayoutDelimited(p: EventProperties)
    requires WellNamed(p)
    ensures var lines := Render(Layout(p));
      |lines| >= 2 && lines[0] == "BEGIN:VEVENT" && lines[|lines| - 1] == "END:VEVENT"
    ensures multiset(Render(Layout(p)))["BEGIN:VEVENT"] == 1
    ensures multiset(Render(Layout(p)))["END:VEVENT"] == 1
  {
    LayoutBounds(p);
    RenderEnds(Layout(p));
    LayoutMarkerCount(p, "BEGIN:VEVENT");
    LayoutMarkerCount(p, "END:VEVENT");
    VeventOccurrences();
  }

  /** The TRANSP line and the two status lines are the 12th to 14th content lines. */
  lemma StatusPositions(p: EventProperties)
    ensures var c := Texts(Layout(p));
      |c| > 13 && c[11] == p.transp && c[12] == p.busy && c[13] == p.intended
  {
    var l := Layout(p);
    assert l == Opening(p) + Status(p) + (LocationEntry(p) + AlarmEntries);
    assert l[11] == Status(p)[3] && l[12] == Status(p)[4] && l[13] == Status(p)[5];
  }

  /** Fixed lines at the end of a list come out last, one physical line each, as they are. */
  lemma {:induction false} RenderFixedTail(head: seq<Entry>, tail: seq<Entry>)
    requires forall i :: 0 <= i < |tail| ==> tail[i].Verbatim?
    ensures Render(head + tail) == Render(head) + Texts(tail)
    decreases |tail|
  {
    if tail == [] {
      assert head + tail == head;
    } else {
      var init := tail[..|tail| - 1];
      forall i | 0 <= i < |init|
        ensures init[i].Verbatim?
      {
        assert init[i] == tail[i];
      }
      RenderFixedTail(head, init);
      RenderFixedStep(head, init, tail[|tail| - 1]);
      SplitLast(head, tail);
    }
  }

  /** One more fixed line at the end renders as itself. */
  lemma RenderFixedStep(head: seq<Entry>, init: seq<Entry>, last: Entry)
    requires last.Verbatim?
    requires Render(head + init) == Render(head) + Texts(init)
    ensures Render(head + init + [last]) == Render(head) + Texts(init + [last])
  {
    RenderSnoc(head + init, last);
    TextsSnoc(init, last);
    RenderedVerbatim(last);
    AppendLine(Render(head), Texts(init), last.text);
  }

  lemma RenderedVerbatim(e: Entry)
    requires e.Verbatim?
    ensures Rendered(e) == [e.text]
  {
  }

  lemma AppendLine(a: seq<string>, b: seq<string>, line: string)
    ensures (a + b) + [line] == a + (b + [line])
  {
  }

  lemma SplitLast(head: seq<Entry>, tail: seq<Entry>)
    requires tail != []
    ensures tail == tail[..|tail| - 1] + [tail[|tail| - 1]]
    ensures head + tail == (head + tail[..|tail| - 1]) + [tail[|tail| - 1]]
  {
  }

  lemma RenderSnoc(entries: seq<Entry>, e: Entry)
    ensures Render(entries + [e]) == Render(entries) + Rendered(e)
  {
    assert (entries + [e])[..|entries|] == entries;
  }

  lemma TextsSnoc(entries: seq<Entry>, e: Entry)
    ensures Texts(entries + [e]) == Texts(entries) + [e.text]
  {
    assert (entries + [e])[..|entries|] == entries;
  }

  /** Every event ends with the six lines of the display alarm and the end of the event, unfolded. */
  lemma LayoutAlarmTail(p: EventProperties)
    ensures var lines := Render(Layout(p));
      |lines| >= 6 && lines[|lines| - 6..] == [
        "BEGIN:VALARM", "ACTION:DISPLAY", "DESCRIPTION:Reminder",
        "TRIGGER;RELATED=START:-PT15M", "END:VALARM", "END:VEVENT"]
  {
    var head := Opening(p) + Status(p) + LocationEntry(p);
    assert Layout(p) == head + AlarmEntries;
    RenderFixedTail(head, AlarmEntries);
    AlarmTexts();
    EndsWith(Render(head), Texts(AlarmEntries));
  }

  lemma AlarmTexts()
    ensures Texts(AlarmEntries) == [
      "BEGIN:VALARM", "ACTION:DISPLAY", "DESCRIPTION:Reminder",
      "TRIGGER;RELATED=START:-PT15M", "END:VALARM", "END:VEVENT"]
  {
  }

  lemma EndsWith(a: seq<string>, t: seq<string>)
    ensures (a + t)[|a + t| - |t|..] == t
  {
  }

  lemma VeventOccurrences()
    ensures DelimiterOccurrences("BEGIN:VEVENT") == 1 && DelimiterOccurrences("END:VEVENT") == 1
  {
  }

  /** A fixed first line and a fixed last line are the first and last rendered lines. */
  lemma RenderEnds(entries: seq<Entry>)
    requires |entries| >= 2 && entries[0].Verbatim? && entries[|entries| - 1].Verbatim?
    ensures var lines := Render(entries);
      |lines| >= 2 && lines[0] == entries[0].text && lines[|lines| - 1] == entries[|entries| - 1].text
  {
    var init := entries[..|entries| - 1];
    assert init[0] == entries[0];
    RenderFirst(init);
    assert Render(entries) == Render(init) + [entries[|entries| - 1].text];
  }

  lemma {:induction false} RenderFirst(entries: seq<Entry>)
    requires entries != [] && entries[0].Verbatim?
    ensures |Render(entries)| >= 1 && Render(entries)[0] == entries[0].text
    decreases |entries|
  {
    if |entries| > 1 {
      var init := entries[..|entries| - 1];
      assert init[0] == entries[0];
      RenderFirst(init);
    }
  }

  /**
   * A line of the rendered block that starts with `B` or `E` is one of the
   * four component delimiters, and each of those appears exactly once.
   */
  lemma LayoutMarkerCount(p: EventProperties, marker: string)
    requires WellNamed(p)
    requires 0 < |marker| < MaxLineLength && (marker[0] == 'B' || marker[0] == 'E')
    ensures multiset(Render(Layout(p)))[marker] == DelimiterOccurrences(marker)
  {
    LayoutPropertyInitials(p);
    LayoutFits(p);
    RenderCount(Layout(p), marker);
    DelimiterCount(p, marker);
  }

  /** How often a component delimiter occurs in one event block: once for each of the four. */
  function DelimiterOccurrences(marker: string): nat {
    (if marker == "BEGIN:VEVENT" then 1 else 0) + (if marker == "BEGIN:VALARM" then 1 else 0)
    + (if marker == "END:VALARM" then 1 else 0) + (if marker == "END:VEVENT" then 1 else 0)
  }

  /** The rendered block is the folding of its content lines, none of which looks like a continuation. */
  lemma LayoutRendersFolded(p: EventProperties)
    requires WellNamed(p)
    ensures Render(Layout(p)) == FoldAll(Texts(Layout(p)))
    ensures forall i :: 0 <= i < |Texts(Layout(p))| ==> !IsContinuation(Texts(Layout(p))[i])
  {
    LayoutFits(p);
    RenderIsFoldAll(Layout(p));
    LayoutStartsLines(p);
  }
}
