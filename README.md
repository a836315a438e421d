# Legal deadline calendar generator — Dafny model

This project models the core of a browser tool that turns a court deadline
and a list of reminders into iCalendar (RFC 5545) files. The model covers:

- RFC 5545 line folding (`foldLine`).
- The two timestamp formatters: local time with a TZID, and UTC with a `Z`.
- The list of events `processForm` builds: the deadline, then one reminder
  per selected option.
- The reminder date arithmetic of `processForm`. It goes through the
  ECMAScript `Date` setters, modelled on the MakeDay/MakeTime arithmetic of
  the ECMAScript specification.
- The composition of one `VEVENT` (`generateICSEvent`).
- The fixed `VTIMEZONE` block for America/Chicago.
- The combined and single-event documents, and the two download modes with
  their file names.
- The settings handlers that rebuild the saved case names and descriptions.

Modules, one per file:

- `JsText`: the JavaScript string operations that are needed, such as
  `trim`, `padStart`, decimal rendering, `join` and splitting at CRLF.
- `Folding`: `foldLine`, and unfolding as its inverse.
- `Calendar`: calendar dates, day numbers and the `Date` setters.
- `Config`: `DEFAULT_CONFIG`.
- `Timestamps`: the two formatters.
- `Reminders`: the reminder scheduler.
- `EventLayout`: the order of an event's lines and how they render.
- `Events`: `generateICSEvent`.
- `Documents`: `generateTimezoneDefinition`, `generateCombinedICSContent`
  and `generateICSContent`.
- `Filenames`: the case-name sanitiser and the reminder file suffix.
- `Downloads`: the combined and separate download modes.
- `Schedule`: the list of events `processForm` builds from the deadline and
  the selected reminder options.
- `Settings`: the settings store and its three save handlers.

A JavaScript `Date` is the value `DateValue`, with three cases:

- `Instant(moment)` holds normalised local fields.
- `InvalidDate` is a `Date` whose time value is NaN.
- `NotADate` is anything else.

The clock and `Math.random` are an `Entropy` parameter. The `k`-th event
composed in one run reads `entropy(k)`. The form fields that
`generateICSEvent` reads from the page are a `FormFields` parameter.

`formatLocalDateForICS` throws only for a value that is not a `Date`; a
`Date` holding NaN formats as `NaNNaNNaNTNaNNaNNaN`. This can happen, for
example, when the event duration field is not a number. The model follows
the code: `FormatLocal` fails only for `NotADate`, and `EndDate` yields
`InvalidDate`.

## Model

| member | source | states |
|---|---|---|
| JsText.Trim | js/app.js:633 | the trimmed name is the input with a white-space prefix and a white-space suffix cut off, has no white space at either end, and is empty exactly when the input is all white space |
| JsText.TrimBetween | js/app.js:633 | any text with non-white-space ends, surrounded by white space on both sides, trims to exactly that text |
| JsText.TrimIdempotent | js/app.js:633 | trimming a name that is already trimmed changes nothing |
| JsText.Pad2 | js/app.js:175-179 | a value below 100 becomes exactly two digits that read back as the value |
| JsText.DecimalRoundTrip | js/app.js:174 | the decimal text of a year reads back as that year |
| JsText.JoinSplitRoundTrip | js/app.js:1392 | splitting the CRLF-joined document at CRLF gives back its lines when no line holds a CR |
| Folding.FoldLine | js/app.js:1259-1268 | the loop yields the pieces of `Folded`: one piece when the line fits, every piece at most 75 characters, and unfolding them gives back the line |
| Folding.FoldedShape | js/app.js:1262-1266 | the first piece is the first 75 characters, every piece but the last is exactly 75 long, and every later piece is a space followed by at least one character |
| Folding.FoldRoundTrip | js/app.js:1262-1266 | removing the leading space of each continuation and concatenating gives back the line |
| Folding.FoldedCount | js/app.js:1262-1266 | a line longer than 75 characters yields 1 + (length - 2) / 74 pieces |
| Folding.UnfoldFoldAll | js/app.js:1301-1331 | unfolding the folded lines gives back the content lines when none of them begins with a space |
| Folding.FoldAllBounded | js/app.js:1301-1331 | every physical line is at most 75 characters |
| Folding.FoldAllCount | js/app.js:1301-1331 | folding neither creates nor destroys a short marker line such as `END:VEVENT` |
| Calendar.Normalize | js/app.js:1747 | an out-of-range day or month rolls over to the valid date with the same day number |
| Calendar.DayNumberInjective | js/app.js:1747 | two valid dates with the same day number are the same date |
| Calendar.TimeValueInjective | js/app.js:1742-1749 | two moments with the same time value are equal |
| Calendar.SetDate | js/app.js:1747 | `setDate(d)` moves the time value by `d - day` whole days and keeps the time of day |
| Calendar.SetHours | js/app.js:1748 | `setHours(h)` moves the time value by `h - hour` hours |
| Calendar.SetHoursFull | js/app.js:1745 | `setHours(7, 0, 0, 0)` keeps the date and sets the time to exactly 07:00:00.000 |
| Calendar.SetMinutes | js/app.js:1284 | `setMinutes(m)` moves the time value by `m - minute` minutes |
| Timestamps.FormatLocal | js/app.js:170-181 | the formatter throws exactly for a value that is not a `Date`; the DTSTART and DTEND lines carry its text |
| Timestamps.FormatUtc | js/app.js:186-194 | the UTC stamp is the field stamp followed by one `Z` |
| Timestamps.StampLayout | js/app.js:174-180 | with a four-digit year the stamp is 15 characters: 8 date digits, `T`, 6 time digits |
| Timestamps.DatePart | js/app.js:174-176 | the date digits read back as the year, the 1-based month and the day |
| Timestamps.TimePart | js/app.js:177-180 | the time digits read back as the hours, minutes and seconds |
| Timestamps.StampInjective | js/app.js:170-181 | two moments with four-digit years and the same stamp agree on every field but the milliseconds |
| Timestamps.UtcLayout | js/app.js:186-194 | the UTC form is 16 characters ending in `Z` |
| Reminders.ComputeReminder | js/app.js:1742-1749 | the copy moved by the setters is `ReminderDate` of the option: a 7 AM reminder falls on the deadline's date at 07:00:00.000; otherwise the reminder lies `days` days and `hours` hours before the deadline |
| Reminders.ReminderDate | js/app.js:1742-1749 | the scheduled date of one reminder option: 07:00:00.000 on the deadline's date for the 7 AM option, otherwise `days` whole days and then `hours` hours before the deadline |
| Reminders.DaysThenHoursIsHoursThenDays | js/app.js:1747-1748 | applying the day setter then the hour setter gives the same moment as the opposite order |
| Reminders.DaysBack | js/app.js:1747 | moving the day back by `n` subtracts `n` days from the time value, across month and year ends |
| Reminders.HoursBack | js/app.js:1748 | moving the hour back by `n` subtracts `n` hours, across midnight |
| Reminders.OneDayBeforeExample | js/app.js:1747-1748 | one day before 16 June 2025 17:00 is 15 June 2025 17:00 |
| Reminders.LeapDayBorrowExample | js/app.js:1747 | one day before 1 March 2024 is 29 February 2024 |
| Reminders.YearBorrowExample | js/app.js:1747 | one day before 1 January 2025 is 31 December 2024 |
| Reminders.HourBorrowExample | js/app.js:1748 | two hours before 01:00 on 1 March 2025 is 23:00 on 28 February 2025 |
| Schedule.ScheduledEvents | js/app.js:1725-1761 | the list holds one entry for the deadline and one per selected reminder option |
| Schedule.BuildEvents | js/app.js:1725-1761 | the pushes build `ScheduledEvents`: the deadline's entry first, then each option's entry in the options' order |
| Schedule.ScheduledAt | js/app.js:1734-1761 | the entry after the deadline's at position `k + 1` is the `k`-th option's, dated by its scheduler and with suffix `Reminder-` and the label without white space |
| Schedule.OnlyFirstIsMain | js/app.js:1725-1761 | an entry is composed as the main event exactly when it is the first one |
| Schedule.RemindersTimed | js/app.js:1741-1749 | each reminder entry holds a `Date` at 07:00 on the deadline's date or the option's days and hours before the deadline |
| Schedule.ScheduledNeverThrows | js/app.js:1725-1761 | composing the combined document of the list never throws, since every entry holds a `Date` |
| Events.IcsPriority | js/app.js:1295-1297 | priority `high` maps to 1, `low` to 9, anything else to 5, in both directions |
| Events.EscapeNewlines | js/app.js:1308 | the escaped description holds no line feed and is one character longer per line feed |
| Events.EscapeRoundTrip | js/app.js:1308 | unescaping gives back a description that holds no backslash |
| Events.EscapeAmbiguity | js/app.js:1308 | a literal backslash-n and a line feed escape to the same text |
| Events.EndDate | js/app.js:1283-1284 | the end lies the duration in minutes after the start, and is an invalid date when the start is invalid or the duration is not a number |
| Events.ComposeEvent | js/app.js:1273-1334 | the composer returns `EventLines`: an error for a value that is not a `Date`, otherwise the folded lines |
| Events.PropertiesWellNamed | js/app.js:1303-1321 | each composed property line begins with its property name |
| Events.EventFolding | js/app.js:1301-1331 | every line of an event is at most 75 characters, and unfolding gives back the unfolded content lines |
| Events.EventIsFolded | js/app.js:1301-1331 | the event's lines are exactly its content lines folded, and no content line begins with a space |
| Events.EventDelimited | js/app.js:1301-1331 | an event begins with `BEGIN:VEVENT`, holds each VEVENT delimiter once, and ends with the six unfolded lines `BEGIN:VALARM`, `ACTION:DISPLAY`, `DESCRIPTION:Reminder`, `TRIGGER;RELATED=START:-PT15M`, `END:VALARM`, `END:VEVENT` |
| Events.EventMarkerCount | js/app.js:1301-1331 | each delimiter line occurs as often as the layout places it: one `BEGIN`/`END` pair each for VEVENT and VALARM |
| Events.EventTransparency | js/app.js:1313 | the only TRANSP line reads OPAQUE exactly when a main event is marked busy |
| Events.TranspLineValues | js/app.js:1313 | the TRANSP value is OPAQUE when busy and TRANSPARENT otherwise |
| Events.EventHasTransp | js/app.js:1313 | every event has a TRANSP line, at position 11 |
| Events.EventBusyStatus | js/app.js:1299-1315 | the BUSYSTATUS and INTENDEDSTATUS lines follow TRANSP: BUSY exactly when TRANSP is OPAQUE, FREE exactly when it is TRANSPARENT |
| Events.StatusLineValues | js/app.js:1299-1315 | both status lines read BUSY for a busy event and FREE otherwise |
| Events.EventLocation | js/app.js:1320-1322 | a LOCATION line appears only for a main event with a non-empty location, and carries that location |
| Events.EventHasLocation | js/app.js:1320-1322 | a main event with a location has its LOCATION line at position 16, right after ORGANIZER |
| EventLayout.RenderEntries | js/app.js:1301-1331 | the loop that folds the property lines and keeps the fixed lines renders the layout |
| EventLayout.RenderIsFoldAll | js/app.js:1301-1331 | rendering the entries folds every content line |
| EventLayout.RenderCount | js/app.js:1301-1331 | a marker line that no property uses occurs as often as it is placed verbatim |
| EventLayout.LayoutBounds | js/app.js:1302-1330 | the layout starts with `BEGIN:VEVENT` and ends with `END:VEVENT` |
| EventLayout.LayoutStartsLines | js/app.js:1302-1330 | no layout line is empty or begins with a space |
| EventLayout.LayoutTranspOnce | js/app.js:1313 | the TRANSP property is at position 11 and nowhere else |
| EventLayout.StatusPositions | js/app.js:1313-1315 | the content lines 11, 12 and 13 are the TRANSP, BUSYSTATUS and INTENDEDSTATUS lines, in that order |
| EventLayout.LayoutLocationOnce | js/app.js:1320-1322 | a LOCATION line appears only at position 16, and only when there is a location |
| EventLayout.LayoutFolding | js/app.js:1301-1331 | the rendered lines fit in 75 characters and unfold to the content lines |
| EventLayout.LayoutDelimited | js/app.js:1302-1330 | the rendered event starts and ends with the VEVENT delimiters and holds each once |
| EventLayout.LayoutMarkerCount | js/app.js:1302-1330 | each delimiter line occurs in the rendered event as often as `DelimiterOccurrences` says |
| EventLayout.RenderFixedTail | js/app.js:1324-1331 | fixed lines pushed at the end come out last, one physical line each, unchanged |
| EventLayout.LayoutAlarmTail | js/app.js:1324-1331 | every rendered event ends with the six alarm and closing lines, in order |
| Documents.GenerateCombinedContent | js/app.js:1366-1393 | the loop builds `CombinedContent`: header, zone, every event's lines in order, closing line, joined by CRLF; the first event that throws aborts the document |
| Documents.GenerateContent | js/app.js:1398-1415 | the single document is the same envelope around one event |
| Documents.ConcatFailsIff | js/app.js:1377-1388 | concatenating event blocks fails exactly when one of them fails |
| Documents.CombinedFailsIff | js/app.js:1366-1393 | the combined document fails exactly when some event's date is not a `Date` |
| Documents.CombinedFolding | js/app.js:1366-1393 | every line of the combined document is at most 75 characters, and unfolding gives the envelope around all the events' content lines |
| Documents.CombinedMarkerCount | js/app.js:1366-1393 | each delimiter line occurs once per event plus as often as the envelope places it |
| Documents.CombinedEnvelope | js/app.js:1366-1393 | the combined document holds exactly one VCALENDAR and one VTIMEZONE |
| Documents.CombinedEvents | js/app.js:1377-1388 | the combined document holds exactly one VEVENT and one VALARM per event |
| Documents.SingleIsCombinedOfOne | js/app.js:1398-1415 | a single document is the combined document of a one-event list |
| Documents.ConcatCount | js/app.js:1377-1388 | blocks that each hold a marker `c` times hold it `n * c` times together |
| Documents.ConcatFolded | js/app.js:1377-1388 | concatenated folded blocks are the fold of the concatenated contents |
| Documents.ZoneCount | js/app.js:1339-1361 | the zone block holds one VTIMEZONE, one DAYLIGHT and one STANDARD pair |
| Documents.EnvelopeCount | js/app.js:1367-1390 | the envelope holds one VCALENDAR and one VTIMEZONE pair and no event delimiter |
| Documents.DaylightOnsetMatchesRule | js/app.js:1345-1351 | the daylight DTSTART is 02:00 on 8 March 1970, a Sunday in the second week of March, which is the onset the RRULE names |
| Documents.StandardOnsetMatchesRule | js/app.js:1352-1358 | the standard DTSTART is 02:00 on 1 November 1970, a Sunday in the first week of November, which is the onset the RRULE names |
| Filenames.StripSpecials | js/app.js:1779 | removing the characters outside `[\w\s-]` leaves only those characters and never lengthens the name |
| Filenames.StripSpecialsOne | js/app.js:1779 | a single character survives exactly when it is in `[\w\s-]` |
| Filenames.StripSpecialsAppend | js/app.js:1779 | stripping works part by part, keeping the surviving characters in their order |
| Filenames.StripSpecialsFixed | js/app.js:1779 | stripping changes a name exactly when it holds a character outside the class |
| Filenames.ReplaceRunsRemovesWhitespace | js/app.js:1779 | replacing white space runs with a white-space-free text leaves no white space |
| Filenames.ReplaceRunsWithoutWhitespace | js/app.js:1779 | a name without white space is not changed by the replacement |
| Filenames.ReplaceRunsWordThen | js/app.js:1779 | characters other than white space are copied through in order |
| Filenames.ReplaceRunsRunThen | js/app.js:1779 | a maximal run of white space, of any length, becomes exactly one replacement |
| Filenames.ReplaceRunsDeletes | js/app.js:1759 | with an empty replacement every white-space character is deleted and the others are kept in order |
| Filenames.SanitizedIsSafe | js/app.js:1779 | the sanitised case name holds only ASCII letters, digits, `_` and `-` |
| Filenames.SanitizeFixedIffSafe | js/app.js:1779 | the sanitiser leaves a name unchanged exactly when the name is already safe |
| Filenames.SanitizeIdempotent | js/app.js:1779 | sanitising twice is sanitising once |
| Filenames.CombinedFileNameIsSafe | js/app.js:1779-1780 | the combined file name is a safe name followed by `.ics` |
| Filenames.ReminderSuffixShape | js/app.js:1759 | a reminder suffix is exactly `Reminder-` followed by the label's non-white-space characters in order, holds no white space, and is `Reminder-` and the label itself when the label has none |
| Filenames.ReminderIsNotMain | js/app.js:1759 | a reminder is never composed as the main event |
| Filenames.SeparateFileNamesDistinct | js/app.js:1813-1814 | within one case, different suffixes give different file names |
| Downloads.GenerateSeparateDownloads | js/app.js:1797-1830 | the loop gives one link per event, in order, each event composed on its own |
| Downloads.PartialSuccessOnlySeparately | js/app.js:1772-1830 | with one good and one bad event, the separate mode still produces the good document while the combined mode fails |
| Downloads.MainAndReminderFilesDiffer | js/app.js:1813-1814 | the main event's file and a reminder's file never share a name |
| Settings.Rebuild | js/app.js:630-645 | the loop over the rows builds `Rebuilt` of the rows' trimmed edits, and every key it writes is non-blank, has no white space at either end and is not a preset |
| Settings.EditsTrimmed | js/app.js:633 | each row's name is its input trimmed: blank exactly when the input is all white space, and otherwise with no white space at either end |
| Settings.RebuiltKeys | js/app.js:630-645 | every key of the rebuilt map is the name of some edit, is not blank and is not a preset |
| Settings.LastEditDecides | js/app.js:635-644 | the last writing edit with a name decides that name's entry: the renamed row's old value or an empty default, a kept row's own value or no entry, or an empty default for a new row |
| Settings.UnnamedAbsent | js/app.js:635-644 | a name that no writing edit carries has no entry |
| Settings.UneditedSaveKeepsMap | js/app.js:626-647 | saving a list of the stored names, none of them edited, gives back the stored map |
| Settings.AppData.constructor | js/app.js:63-80 | a fresh store has no cases, no descriptions and the three default presets |
| Settings.AppData.SaveCasesChanges | js/app.js:626-647 | the case names become the map rebuilt from the rows, with no attorneys for a new case; the rest is unchanged and no description shadows a preset |
| Settings.AppData.SaveDescriptionsChanges | js/app.js:1027-1053 | the descriptions become the map rebuilt from the rows, skipping preset names, with no reminders for a new description |
| Settings.AppData.SaveDescriptionData | js/app.js:702-716 | a preset is left alone; any other description gets the chosen reminders, whether or not it existed |

## Left out

- Page access is outside the model. This covers DOM reads and writes, `localStorage`, download links, object URLs, timers and status messages. The form values arrive as parameters.
- The clock and `Math.random` are outside the model. They arrive as `Entropy`. The UID's hexadecimal random parts are taken as given strings.
- Daylight-saving jumps and the host time zone are outside the model. A local `Date` is a continuous wall clock, which is why `Reminders.DaysThenHoursIsHoursThenDays` holds.
- The range limit of a JavaScript `Date` (±8.64e15 ms) is not modelled. Integers are unbounded.
- Folding.Folded and Folding.FoldLine count characters (Unicode scalar values), while `line.length` counts UTF-16 code units. A character outside the Basic Multilingual Plane, such as the summary prefix emoji, counts once in the model and twice in the source, so the source cuts such a line earlier and may split a surrogate pair between two physical lines. Neither counts the UTF-8 octets of section 3.1 of RFC 5545, so a folded line may exceed 75 octets.
- `parseInt` of reminder offsets and durations: a non-number duration is modelled as a missing duration (`None`). Reminder offsets are taken already parsed.
- `formatDate` and the locale-dependent reminder description text are not modelled. The summary and description of each generated event are inputs.
- The prefix choice and the summary and description templates of `processForm` (lines 1706-1724 and 1751-1753) are not modelled. They only build strings. `Schedule` takes the deadline's summary and description as texts and the reminders' as functions of the label.
- Schedule.ReminderEvent: a reminder entry in the source has no `location` field. The model gives it an empty location, which composes the same way, because only a main event gets a LOCATION line.
- The form checks of `processForm` before the list is built are not modelled. Examples are a missing case name, an invalid deadline and no selected reminder. `Schedule` starts from a valid deadline.
- Events.EscapeNewlines: only line feeds are escaped, as in the code. Backslashes, commas and semicolons are not escaped, and the summary is not escaped at all. `Events.EscapeAmbiguity` exhibits the resulting ambiguity.
- Settings: object keys inherited from the prototype, such as `constructor` or `__proto__`, are not modelled. Map keys are plain strings.
- Settings: a row kept under its name whose old value is missing stores `undefined`, which disappears when the settings are serialised. The model removes the key.
- Settings: the management dialogs list only non-preset description rows. The rows are taken as given.
- Settings: the validation and recovery path of `initializeAppData` is not modelled. The store is the fresh one the constructor builds, or the state the handlers leave.
