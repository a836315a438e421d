/**
 * The two download modes of `processForm`: one combined document named
 * after the case, or one document per generated event, where an event that
 * fails is reported on its own and the others are still produced.
 */
module Downloads {
  import opened Wrappers
  import opened Timestamps
  import opened Events
  import opened Documents
  import opened Filenames

  /** A download link: the file name, and the document or the error reported in its place. */
  datatype Download = Download(fileName: string, content: Result<string, Error>)

  /** The link the separate mode makes for one event, composed with the given clock and random values. */
  function SeparateDownload(caseName: string, e: GeneratedEvent, priority: string, form: FormFields, entropy: Entropy): Download {
    Download(SeparateFileName(caseName, e.filenameSuffix), SingleContent(RequestOf(e, priority), form, entropy))
  }

  /** The combined mode: a single link for every event. */
  function CombinedDownload(caseName: string, events: seq<GeneratedEvent>, priority: string, form: FormFields, entropy: nat -> Entropy): Download {
    Download(CombinedFileName(caseName), CombinedContent(events, priority, form, entropy))
  }

  /** The links of the separate mode, the `k`-th event composed with the `k`-th clock and random values. */
  function SeparateDownloads(caseName: string, events: seq<GeneratedEvent>, priority: string, form: FormFields, entropy: nat -> Entropy)
    : (r: seq<Download>)
    ensures |r| == |events|
  {
    seq(|events|, k requires 0 <= k < |events| => SeparateDownload(caseName, events[k], priority, form, entropy(k)))
  }

  /**
   * The separate mode: each event in turn gets its document, a failure
   * being caught and reported for that event alone.
   */
  method GenerateSeparateDownloads(caseName: string, events: seq<GeneratedEvent>, priority: string, form: FormFields, entropy: nat -> Entropy)
    returns (downloads: seq<Download>)
    ensures downloads == SeparateDownloads(caseName, events, priority, form, entropy)
  {
    downloads := [];
    for i := 0 to |events|
      invariant downloads == SeparateDownloads(caseName, events[..i], priority, form, entropy)
    {
      var content := GenerateContent(RequestOf(events[i], priority), form, entropy(i));
      SeparateDownloadsSnoc(caseName, events, priority, form, entropy, i);
      downloads := downloads + [Download(SeparateFileName(caseName, events[i].filenameSuffix), content)];
    }
    assert events[..|events|] == events;
  }

  lemma SeparateDownloadsSnoc(caseName: string, events: seq<GeneratedEvent>, priority: string, form: FormFields, entropy: nat -> Entropy, i: nat)
    requires i < |events|
    ensures SeparateDownloads(caseName, events[..i + 1], priority, form, entropy)
      == SeparateDownloads(caseName, events[..i], priority, form, entropy) + [SeparateDownload(caseName, events[i], priority, form, entropy(i))]
  {
    var longer := SeparateDownloads(caseName, events[..i + 1], priority, form, entropy);
    var shorter := SeparateDownloads(caseName, events[..i], priority, form, entropy);
    forall k | 0 <= k < i
      ensures longer[k] == shorter[k]
    {
      assert events[..i + 1][k] == events[..i][k];
    }
    assert longer[i] == SeparateDownload(caseName, events[i], priority, form, entropy(i));
  }

  /** One event's document fails exactly when its date is not a `Date`; no other event is involved. */
  lemma SeparateFailsIff(caseName: string, e: GeneratedEvent, priority: string, form: FormFields, entropy: Entropy)
    ensures SeparateDownload(caseName, e, priority, form, entropy).content.Failure? <==> e.date.NotADate?
  {
  }

  /**
   * When at least one event succeeds, the separate mode still produces its
   * document even if others fail, while the combined mode produces nothing
   * as soon as one fails.
   */
  lemma PartialSuccessOnlySeparately(
    caseName: string, events: seq<GeneratedEvent>, priority: string, form: FormFields, entropy: nat -> Entropy, good: nat, bad: nat)
    requires good < |events| && bad < |events|
    requires !events[good].date.NotADate? && events[bad].date.NotADate?
    ensures SeparateDownload(caseName, events[good], priority, form, entropy(good)).content.Success?
    ensures SeparateDownload(caseName, events[bad], priority, form, entropy(bad)).content.Failure?
    ensures CombinedDownload(caseName, events, priority, form, entropy).content.Failure?
  {
    SeparateFailsIff(caseName, events[good], priority, form, entropy(good));
    SeparateFailsIff(caseName, events[bad], priority, form, entropy(bad));
    CombinedFailsIff(events, priority, form, entropy);
  }

  /** Within one run of the separate mode, the main event's file and a reminder's file never share a name. */
  lemma MainAndReminderFilesDiffer(caseName: string, reminderLabel: string)
    ensures SeparateFileName(caseName, "Deadline") != SeparateFileName(caseName, ReminderSuffix(reminderLabel))
  {
    assert ReminderSuffix(reminderLabel)[0] == 'R';
    if SeparateFileName(caseName, "Deadline") == SeparateFileName(caseName, ReminderSuffix(reminderLabel)) {
      SeparateFileNamesDistinct(caseName, "Deadline", ReminderSuffix(reminderLabel));
    }
  }
}
