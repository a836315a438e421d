/**
 * The list of events `processForm` builds before anything is composed: the
 * deadline itself first, then one reminder per selected reminder option, in
 * the order the options are listed.  The summary and description texts come
 * from templates (and, for a reminder's description, from `formatDate`), so
 * they arrive here as given texts and as functions of the reminder's label.
 */
module Schedule {
  import opened Calendar
  import opened Timestamps
  import opened Reminders
  import opened Events
  import opened Documents
  import opened Filenames

  /** The entry for the deadline: its own date, the file suffix "Deadline" and the location. */
  function DeadlineEvent(deadline: Moment, summary: string, description: string, location: string): GeneratedEvent {
    GeneratedEvent(Instant(deadline), summary, description, "Deadline", location)
  }

  /** The entry for one reminder option; a reminder carries no location. */
  function ReminderEvent(deadline: Moment, rule: ReminderRule, summaryOf: string -> string, descriptionOf: string -> string)
    : GeneratedEvent
  {
    GeneratedEvent(Instant(ReminderDate(deadline, rule.timing)), summaryOf(rule.name), descriptionOf(rule.name),
      ReminderSuffix(rule.name), "")
  }

  /** The deadline's entry followed by one entry per rule, in the rules' order. */
  function ScheduledEvents(
    deadline: Moment, summary: string, description: string, location: string,
    rules: seq<ReminderRule>, summaryOf: string -> string, descriptionOf: string -> string)
    : (r: seq<GeneratedEvent>)
    ensures |r| == |rules| + 1
  {
    [DeadlineEvent(deadline, summary, description, location)] + ReminderEvents(deadline, rules, summaryOf, descriptionOf)
  }

  function ReminderEvents(deadline: Moment, rules: seq<ReminderRule>, summaryOf: string -> string, descriptionOf: string -> string)
    : (r: seq<GeneratedEvent>)
    ensures |r| == |rules|
  {
    seq(|rules|, k requires 0 <= k < |rules| => ReminderEvent(deadline, rules[k], summaryOf, descriptionOf))
  }

  /**
   * The deadline's entry is pushed first; then each selected option in turn
   * copies the deadline, moves the copy with the setters and pushes its entry.
   */
  method BuildEvents(
    deadline: Moment, summary: string, description: string, location: string,
    rules: seq<ReminderRule>, summaryOf: string -> string, descriptionOf: string -> string)
    returns (events: seq<GeneratedEvent>)
    ensures events == ScheduledEvents(deadline, summary, description, location, rules, summaryOf, descriptionOf)
  {
    events := [DeadlineEvent(deadline, summary, description, location)];
    for i := 0 to |rules|
      invariant events == ScheduledEvents(deadline, summary, description, location, rules[..i], summaryOf, descriptionOf)
    {
      var date := ComputeReminder(deadline, rules[i].timing);
      ScheduledSnoc(deadline, summary, description, location, rules, summaryOf, descriptionOf, i);
      events := events + [GeneratedEvent(Instant(date), summaryOf(rules[i].name), descriptionOf(rules[i].name),
        ReminderSuffix(rules[i].name), "")];
    }
    assert rules[..|rules|] == rules;
  }

  lemma ScheduledSnoc(
    deadline: Moment, summary: string, description: string, location: string,
    rules: seq<ReminderRule>, summaryOf: string -> string, descriptionOf: string -> string, i: nat)
    requires i < |rules|
    ensures ScheduledEvents(deadline, summary, description, location, rules[..i + 1], summaryOf, descriptionOf)
      == ScheduledEvents(deadline, summary, description, location, rules[..i], summaryOf, descriptionOf)
        + [ReminderEvent(deadline, rules[i], summaryOf, descriptionOf)]
  {
    var head := [DeadlineEvent(deadline, summary, description, location)];
    var longer := ReminderEvents(deadline, rules[..i + 1], summaryOf, descriptionOf);
    var shorter := ReminderEvents(deadline, rules[..i], summaryOf, descriptionOf);
    var last := ReminderEvent(deadline, rules[i], summaryOf, descriptionOf);
    forall k | 0 <= k < i
      ensures longer[k] == shorter[k]
    {
      assert rules[..i + 1][k] == rules[..i][k];
    }
    assert longer[i] == last;
    assert longer == shorter + [last];
    assert head + (shorter + [last]) == (head + shorter) + [last];
  }

  /** The entry after the deadline's, at position `k + 1`, is the `k`-th rule's. */
  lemma ScheduledAt(
    deadline: Moment, summary: string, description: string, location: string,
    rules: seq<ReminderRule>, summaryOf: string -> string, descriptionOf: string -> string, k: nat)
    requires k < |rules|
    ensures ScheduledEvents(deadline, summary, description, location, rules, summaryOf, descriptionOf)[k + 1]
      == ReminderEvent(deadline, rules[k], summaryOf, descriptionOf)
  {
    var tail := ReminderEvents(deadline, rules, summaryOf, descriptionOf);
    assert tail[k] == ReminderEvent(deadline, rules[k], summaryOf, descriptionOf);
    assert ([DeadlineEvent(deadline, summary, description, location)] + tail)[k + 1] == tail[k];
  }

  /** A reminder's entry holds a `Date` and is not the main event. */
  lemma ReminderEventShape(deadline: Moment, rule: ReminderRule, summaryOf: string -> string, descriptionOf: string -> string)
    ensures ReminderEvent(deadline, rule, summaryOf, descriptionOf).date.Instant?
    ensures !IsMainEvent(ReminderEvent(deadline, rule, summaryOf, descriptionOf))
  {
    ReminderIsNotMain(rule.name, ReminderEvent(deadline, rule, summaryOf, descriptionOf));
  }

  /**
   * Only the first entry is composed as the main event: every reminder's
   * suffix starts with `Reminder-`, never "Deadline".
   */
  lemma OnlyFirstIsMain(
    deadline: Moment, summary: string, description: string, location: string,
    rules: seq<ReminderRule>, summaryOf: string -> string, descriptionOf: string -> string, k: nat)
    requires k <= |rules|
    ensures IsMainEvent(ScheduledEvents(deadline, summary, description, location, rules, summaryOf, descriptionOf)[k])
      <==> k == 0
  {
    if k > 0 {
      ScheduledAt(deadline, summary, description, location, rules, summaryOf, descriptionOf, k - 1);
      ReminderEventShape(deadline, rules[k - 1], summaryOf, descriptionOf);
    }
  }

  /**
   * Each reminder lands where its option says: at 7 AM on the deadline's
   * date, or whole days and then hours before the deadline.
   */
  lemma RemindersTimed(
    deadline: Moment, summary: string, description: string, location: string,
    rules: seq<ReminderRule>, summaryOf: string -> string, descriptionOf: string -> string, k: nat)
    requires k < |rules|
    ensures var e := ScheduledEvents(deadline, summary, description, location, rules, summaryOf, descriptionOf)[k + 1];
      && e.date.Instant?
      && (rules[k].timing.SevenAmDayOf? ==>
        e.date.t.year == deadline.year && e.date.t.month == deadline.month && e.date.t.day == deadline.day
        && e.date.t.hour == 7 && e.date.t.minute == 0 && e.date.t.second == 0 && e.date.t.millisecond == 0)
      && (rules[k].timing.Before? ==>
        TimeValue(e.date.t) == TimeValue(deadline) - rules[k].timing.days * MsPerDay - rules[k].timing.hours * MsPerHour)
  {
    ScheduledAt(deadline, summary, description, location, rules, summaryOf, descriptionOf, k);
  }

  /** Every entry holds a `Date`, so composing the combined document of the list never throws. */
  lemma ScheduledNeverThrows(
    deadline: Moment, summary: string, description: string, location: string,
    rules: seq<ReminderRule>, summaryOf: string -> string, descriptionOf: string -> string,
    priority: string, form: FormFields, entropy: nat -> Entropy)
    ensures CombinedContent(ScheduledEvents(deadline, summary, description, location, rules, summaryOf, descriptionOf),
      priority, form, entropy).Success?
  {
    var events := ScheduledEvents(deadline, summary, description, location, rules, summaryOf, descriptionOf);
    CombinedFailsIff(events, priority, form, entropy);
    forall k | 0 <= k < |events|
      ensures !events[k].date.NotADate?
    {
      if k > 0 {
        ScheduledAt(deadline, summary, description, location, rules, summaryOf, descriptionOf, k - 1);
        ReminderEventShape(deadline, rules[k - 1], summaryOf, descriptionOf);
      }
    }
  }
}
