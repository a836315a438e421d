/**
 * The download file names `processForm` builds: the case name with every
 * character outside `[\w\s-]` removed and each run of white space turned
 * into one `_`, then `_All_Events.ics` for the combined file or `_`, the
 * event's suffix and `.ics` for one file per event. A reminder's suffix is
 * `Reminder-` followed by its label with all white space removed.
 */
module Filenames {
  import opened JsText
  import Documents

  /** The regular-expression class `\w` without the `u` flag: ASCII letters, digits and `_`. */
  predicate IsWordChar(c: char) {
    ('A' <= c <= 'Z') || ('a' <= c <= 'z') || ('0' <= c <= '9') || c == '_'
  }

  /** The characters the class `[\w\s-]` matches. */
  predicate Kept(c: char) {
    IsWordChar(c) || IsWhitespace(c) || c == '-'
  }

  /** A name made only of word characters and hyphens: no white space, no separators, no punctuation. */
  predicate SafeName(s: string) {
    forall i :: 0 <= i < |s| ==> IsWordChar(s[i]) || s[i] == '-'
  }

  predicate NoWhitespace(s: string) {
    forall i :: 0 <= i < |s| ==> !IsWhitespace(s[i])
  }

  /** The characters of `s` that are not white space, in order. */
  function WithoutWhitespace(s: string): string
    decreases |s|
  {
    if s == [] then [] else (if IsWhitespace(s[0]) then [] else [s[0]]) + WithoutWhitespace(s[1..])
  }

  /** `replace(/[^\w\s-]/gi, '')`: every character outside the class removed, the rest kept in order. */
  function StripSpecials(s: string): (r: string)
    ensures |r| <= |s|
    ensures forall i :: 0 <= i < |r| ==> Kept(r[i])
    decreases |s|
  {
    if s == [] then []
    else if Kept(s[0]) then [s[0]] + StripSpecials(s[1..])
    else StripSpecials(s[1..])
  }

  /** `replace(/\s+/g, replacement)`: each maximal run of white space becomes one `replacement`. */
  function ReplaceRuns(s: string, replacement: string): (r: string)
    decreases |s|
  {
    if s == [] then []
    else if IsWhitespace(s[0]) then
      var rest := TrimStart(s);
      assert rest != s;
      replacement + ReplaceRuns(rest, replacement)
    else [s[0]] + ReplaceRuns(s[1..], replacement)
  }

  /** The sanitised case name both download modes start their file name with. */
  function SanitizeCaseName(caseName: string): string {
    ReplaceRuns(StripSpecials(caseName), "_")
  }

  /** The name of the single file of the combined mode. */
  function CombinedFileName(caseName: string): string {
    SanitizeCaseName(caseName) + "_All_Events.ics"
  }

  /** The name of one event's file in the separate mode. */
  function SeparateFileName(caseName: string, suffix: string): string {
    SanitizeCaseName(caseName) + "_" + suffix + ".ics"
  }

  /** A reminder entry's `filenameSuffix`. */
  function ReminderSuffix(reminderLabel: string): string {
    "Reminder-" + ReplaceRuns(reminderLabel, "")
  }

  /** Stripping works character by character: one character is kept exactly when it is in the class. */
  lemma StripSpecialsOne(c: char)
    ensures StripSpecials([c]) == if Kept(c) then [c] else []
  {
    assert [c][1..] == [];
  }

  /** Stripping a concatenation strips each part and keeps them in order. */
  lemma {:induction false} StripSpecialsAppend(a: string, b: string)
    ensures StripSpecials(a + b) == StripSpecials(a) + StripSpecials(b)
    decreases |a|
  {
    if a == [] {
      assert a + b == b;
    } else {
      assert (a + b)[0] == a[0] && (a + b)[1..] == a[1..] + b;
      StripSpecialsAppend(a[1..], b);
    }
  }

  /** Stripping removes exactly the characters outside the class: it changes a name iff the name has one. */
  lemma {:induction false} StripSpecialsFixed(s: string)
    ensures StripSpecials(s) == s <==> forall i :: 0 <= i < |s| ==> Kept(s[i])
    decreases |s|
  {
    if s != [] {
      StripSpecialsFixed(s[1..]);
      if !Kept(s[0]) {
        assert |StripSpecials(s)| < |s|;
      } else if forall i :: 0 <= i < |s| ==> Kept(s[i]) {
        assert forall i :: 0 <= i < |s[1..]| ==> Kept(s[1..][i]) by {
          forall i | 0 <= i < |s[1..]| ensures Kept(s[1..][i]) {
            assert s[1..][i] == s[i + 1];
          }
        }
      } else {
        var k :| 0 <= k < |s| && !Kept(s[k]);
        assert s[1..][k - 1] == s[k];
        assert StripSpecials(s)[1..] == StripSpecials(s[1..]);
      }
    }
  }

  /** With a replacement free of white space, no white space survives, and every other character is kept. */
  lemma {:induction false} ReplaceRunsRemovesWhitespace(s: string, replacement: string)
    requires NoWhitespace(replacement)
    ensures NoWhitespace(ReplaceRuns(s, replacement))
    decreases |s|
  {
    if s != [] {
      if IsWhitespace(s[0]) {
        ReplaceRunsRemovesWhitespace(TrimStart(s), replacement);
      } else {
        ReplaceRunsRemovesWhitespace(s[1..], replacement);
      }
    }
  }

  /** Text without white space is left as it is. */
  lemma {:induction false} ReplaceRunsWithoutWhitespace(s: string, replacement: string)
    requires NoWhitespace(s)
    ensures ReplaceRuns(s, replacement) == s
    decreases |s|
  {
    if s != [] {
      assert NoWhitespace(s[1..]) by {
        forall i | 0 <= i < |s[1..]| ensures !IsWhitespace(s[1..][i]) {
          assert s[1..][i] == s[i + 1];
        }
      }
      ReplaceRunsWithoutWhitespace(s[1..], replacement);
    }
  }

  /** Every character of the replaced text is either one of the input's or one of the replacement's. */
  lemma {:induction false} ReplaceRunsKeeps(s: string, replacement: string, P: char -> bool)
    requires forall i :: 0 <= i < |s| && !IsWhitespace(s[i]) ==> P(s[i])
    requires forall i :: 0 <= i < |replacement| ==> P(replacement[i])
    ensures forall i :: 0 <= i < |ReplaceRuns(s, replacement)| ==> P(ReplaceRuns(s, replacement)[i])
    decreases |s|
  {
    if s != [] {
      if IsWhitespace(s[0]) {
        var rest := TrimStart(s);
        assert forall i :: 0 <= i < |rest| && !IsWhitespace(rest[i]) ==> P(rest[i]) by {
          forall i | 0 <= i < |rest| && !IsWhitespace(rest[i]) ensures P(rest[i]) {
            assert rest[i] == s[|s| - |rest| + i];
          }
        }
        ReplaceRunsKeeps(rest, replacement, P);
      } else {
        assert forall i :: 0 <= i < |s[1..]| && !IsWhitespace(s[1..][i]) ==> P(s[1..][i]) by {
          forall i | 0 <= i < |s[1..]| && !IsWhitespace(s[1..][i]) ensures P(s[1..][i]) {
            assert s[1..][i] == s[i + 1];
          }
        }
        ReplaceRunsKeeps(s[1..], replacement, P);
      }
    }
  }

  /** A stretch without white space is copied through, and the rest of the text is replaced after it. */
  lemma {:induction false} ReplaceRunsWordThen(w: string, s: string, replacement: string)
    requires NoWhitespace(w)
    ensures ReplaceRuns(w + s, replacement) == w + ReplaceRuns(s, replacement)
    decreases |w|
  {
    if w == [] {
      assert w + s == s;
    } else {
      assert (w + s)[0] == w[0] && (w + s)[1..] == w[1..] + s;
      assert NoWhitespace(w[1..]) by {
        forall i | 0 <= i < |w[1..]| ensures !IsWhitespace(w[1..][i]) {
          assert w[1..][i] == w[i + 1];
        }
      }
      ReplaceRunsWordThen(w[1..], s, replacement);
    }
  }

  /** A maximal run of white space, however long, becomes one `replacement`. */
  lemma ReplaceRunsRunThen(run: string, t: string, replacement: string)
    requires run != [] && AllWhitespace(run)
    requires t == [] || !IsWhitespace(t[0])
    ensures ReplaceRuns(run + t, replacement) == replacement + ReplaceRuns(t, replacement)
  {
    var s := run + t;
    assert s[0] == run[0];
    var k := LeadingSpace(s);
    if t != [] {
      assert s[|run|] == t[0];
    }
    assert TrimStart(s) == t;
  }

  lemma {:induction false} WithoutWhitespaceAppend(a: string, b: string)
    ensures WithoutWhitespace(a + b) == WithoutWhitespace(a) + WithoutWhitespace(b)
    decreases |a|
  {
    if a == [] {
      assert a + b == b;
    } else {
      assert (a + b)[0] == a[0] && (a + b)[1..] == a[1..] + b;
      WithoutWhitespaceAppend(a[1..], b);
    }
  }

  lemma {:induction false} WithoutWhitespaceOfBlank(a: string)
    requires AllWhitespace(a)
    ensures WithoutWhitespace(a) == []
    decreases |a|
  {
    if a != [] {
      assert AllWhitespace(a[1..]) by {
        forall i | 0 <= i < |a[1..]| ensures IsWhitespace(a[1..][i]) {
          assert a[1..][i] == a[i + 1];
        }
      }
      WithoutWhitespaceOfBlank(a[1..]);
    }
  }

  /** With an empty replacement, replacing the runs deletes every white-space character and keeps the rest in order. */
  lemma {:induction false} ReplaceRunsDeletes(s: string)
    ensures ReplaceRuns(s, "") == WithoutWhitespace(s)
    decreases |s|
  {
    if s != [] {
      if IsWhitespace(s[0]) {
        var rest := TrimStart(s);
        var run := s[..|s| - |rest|];
        assert s == run + rest;
        assert rest != s;
        ReplaceRunsDeletes(rest);
        WithoutWhitespaceAppend(run, rest);
        WithoutWhitespaceOfBlank(run);
      } else {
        ReplaceRunsDeletes(s[1..]);
      }
    }
  }

  /** The sanitised name holds only word characters and hyphens. */
  lemma SanitizedIsSafe(caseName: string)
    ensures SafeName(SanitizeCaseName(caseName))
  {
    var stripped := StripSpecials(caseName);
    ReplaceRunsKeeps(stripped, "_", c => IsWordChar(c) || c == '-');
  }

  /** A name is left unchanged by the sanitiser exactly when it is already safe. */
  lemma SanitizeFixedIffSafe(caseName: string)
    ensures SanitizeCaseName(caseName) == caseName <==> SafeName(caseName)
  {
    SanitizedIsSafe(caseName);
    if SafeName(caseName) {
      StripSpecialsFixed(caseName);
      ReplaceRunsWithoutWhitespace(caseName, "_");
    }
  }

  /** Sanitising twice is sanitising once. */
  lemma SanitizeIdempotent(caseName: string)
    ensures SanitizeCaseName(SanitizeCaseName(caseName)) == SanitizeCaseName(caseName)
  {
    SanitizedIsSafe(caseName);
    SanitizeFixedIffSafe(SanitizeCaseName(caseName));
  }

  /** The combined file's name is a safe name followed by the `.ics` extension. */
  lemma CombinedFileNameIsSafe(caseName: string)
    ensures var name := CombinedFileName(caseName);
      |name| >= 4 && name[|name| - 4..] == ".ics" && SafeName(name[..|name| - 4])
  {
    SanitizedIsSafe(caseName);
    var base := SanitizeCaseName(caseName);
    assert CombinedFileName(caseName)[..|CombinedFileName(caseName)| - 4] == base + "_All_Events";
  }

  /**
   * A reminder's suffix is `Reminder-` and then the label without any white
   * space; the label's other characters are kept, in order, and the label
   * is not sanitised beyond that.
   */
  lemma ReminderSuffixShape(reminderLabel: string)
    ensures |ReminderSuffix(reminderLabel)| >= 9 && ReminderSuffix(reminderLabel)[..9] == "Reminder-"
    ensures NoWhitespace(ReminderSuffix(reminderLabel))
    ensures ReminderSuffix(reminderLabel) == "Reminder-" + WithoutWhitespace(reminderLabel)
    ensures NoWhitespace(reminderLabel) ==> ReminderSuffix(reminderLabel) == "Reminder-" + reminderLabel
  {
    ReplaceRunsDeletes(reminderLabel);
    ReplaceRunsRemovesWhitespace(reminderLabel, "");
    if NoWhitespace(reminderLabel) {
      ReplaceRunsWithoutWhitespace(reminderLabel, "");
    }
  }

  /** A reminder's suffix never reads "Deadline", so a reminder is never composed as the main event. */
  lemma ReminderIsNotMain(reminderLabel: string, e: Documents.GeneratedEvent)
    requires e.filenameSuffix == ReminderSuffix(reminderLabel)
    ensures !Documents.IsMainEvent(e)
  {
    assert ReminderSuffix(reminderLabel)[0] == 'R';
  }

  /** Within one case, different suffixes give different file names. */
  lemma SeparateFileNamesDistinct(caseName: string, a: string, b: string)
    requires SeparateFileName(caseName, a) == SeparateFileName(caseName, b)
    ensures a == b
  {
    var prefix := SanitizeCaseName(caseName) + "_";
    assert SeparateFileName(caseName, a) == prefix + (a + ".ics");
    assert SeparateFileName(caseName, b) == prefix + (b + ".ics");
    assert a + ".ics" == (prefix + (a + ".ics"))[|prefix|..];
    assert a == (a + ".ics")[..|a|];
    assert b == (b + ".ics")[..|b|];
  }
}
