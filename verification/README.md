# fhr attendance analyzer — a Dafny model

fhr reads a punch-clock export, a tab-separated file with one line per
check-in ("上班") or check-out ("下班"). It groups the punches into work
days and applies the company's attendance rules. Each work day can yield
issues:

- lateness past 10:30, with the lunch hour deducted after 12:30;
- a forget-punch (at most two per month, for at most 60 minutes of lateness) instead of a late leave;
- overtime, rounded down to whole hours beyond a one-hour minimum;
- a WFH or leave suggestion for an absent Friday or weekday.

Incremental runs keep a per-user ledger of the date ranges already
analysed, so only new complete days are reported. Results go to a text
report, CSV or Excel, an analysis service used by the web server and the
terminal UI, and a most-recently-used file list. Two small tools ship with
it: a PO to MO compiler and an import sorter.

This project models that core in Dafny 4.11, one module per source file:

| module | source |
|---|---|
| Common, Records | Python string and list behaviour; records, work days and issues; calendar arithmetic |
| Policy | lib/policy.py |
| Analyzer | attendance_analyzer.py (parsing, grouping, per-day evaluation) |
| State | lib/state.py |
| Dates, Grouping, Parser, Filename, Report, CsvExport | lib/dates.py, lib/grouping.py, lib/parser.py, lib/filename.py, lib/report.py, lib/csv_exporter.py |
| Service | lib/service/analyzer.py |
| Server | the pure helpers of server/main.py |
| ExportCleanup, Recent | lib/export_cleanup.py, lib/recent.py |
| Tui | tui/recent.py, `truncate_rows` of tui/adapters.py |
| PoToMo, FixImports | tools/po_to_mo.py, fix_imports.py |

Pure code is modelled as functions and lemmas. Code that works step by
step is modelled as methods with loops, proved against those functions:

- the analyzer's grouping and evaluation loops;
- the range filter with its merge and binary search;
- the state manager's updates;
- the export and cleanup loops;
- the PO parser and the MO offset tables;
- the import sorter's scans.

Objects whose fields the source updates in place are classes: the
analyzer, the state manager, the CSV row writer, the recent-file store and
the file system seen by the cleanup.

Times are whole minutes and dates whole day numbers, both counted from
1970-01-01. `strptime` is a parameter: a function from text to an optional
number, `None` where Python raises. So are file existence, directory
listings, the clock and the cancel event.

## Model

| member | source | states |
|---|---|---|
| Records.LastFilling | attendance_analyzer.py:279-289 | a filled slot holds a record of that date and slot |
| Records.LastFillingIsLast | attendance_analyzer.py:279-289 | the last record wins: a slot is empty exactly when no record fills it, and otherwise holds one that no later record replaces |
| Records.LastFillingEmpty | attendance_analyzer.py:279-289 | a slot is empty exactly when no record fills it |
| Records.LastFillingIndex | attendance_analyzer.py:279-289 | a filled slot holds a record that no later record replaces |
| Records.LastCheckIn | attendance_analyzer.py:275-287 | the check-in slot of a date holds, if anything, a check-in record of that date taken from the records |
| Records.DistinctDates | attendance_analyzer.py:279-285 | the dict's keys: every date of a dated record, each once |
| Records.Weekday | attendance_analyzer.py:296 | a weekday number from 0 to 6 |
| Records.EpochIsThursday | attendance_analyzer.py:296 | 1970-01-01 was a Thursday (weekday 3) |
| Records.NewYear2025 | attendance_analyzer.py:296 | 2025-01-01 was a Wednesday (weekday 2) |
| Records.LeapDay2024 | attendance_analyzer.py:296 | day 19782 is 2024-02-29 |
| Common.SortBySorted | attendance_analyzer.py:301 | `list.sort` with a key: the result is sorted |
| Common.SortBy | attendance_analyzer.py:301 | `list.sort`: a permutation of its input |
| Common.SortByStable | attendance_analyzer.py:301 | `list.sort` is stable: elements with equal keys keep their order |
| Common.LexMaxIsUpperBound | lib/state.py:53 | `max` of strings bounds every string |
| Common.LexMax | lib/state.py:53 | `max(..., default="")`: "" for no strings, otherwise one of them |
| Common.PyPrefix | lib/service/analyzer.py:299 | Python's `[:k]`: the first `k` elements, or all but the last `-k` for a negative `k` |
| Common.Split | lib/parser.py:16 | `str.split` on one character: at least one piece, none containing the separator |
| Common.JoinSplit | lib/parser.py:16 | joining the pieces back with the separator gives the line |
| Common.SplitJoin | lib/parser.py:16 | pieces without the separator, joined and split again, come back unchanged |
| Common.Words | fix_imports.py:53 | `str.split()` without argument: non-empty words |
| Common.ReplaceAll | lib/service/analyzer.py:253 | `str.replace` leaves a string without the pattern unchanged |
| Common.LexLeIsTotalPreorder | fix_imports.py:69-71 | Python's string order is a total preorder |
| Common.SortStrings | fix_imports.py:69-71 | `list.sort` of strings: a sorted permutation |
| Policy.ParseClock | lib/policy.py:34 | `strptime` of `%H:%M`: only a valid hour (0-23) and minute (0-59) parse, to a time of day below 1440 minutes |
| Policy.TwoDigitsValue | lib/policy.py:60 | a zero-padded two-digit field reads back as its number |
| Policy.ParseClockOfHourMinute | lib/policy.py:60 | a time written with `%H:%M` parses back to the same time of day |
| Policy.ParseClockOfText | lib/policy.py:8-11 | clock text of two-digit hours and minutes parses to hours * 60 + minutes |
| Policy.DefaultCutoff | lib/policy.py:9 | the default latest check-in is 10:30 |
| Policy.DefaultLunchStart | lib/policy.py:10 | the default lunch start is 12:30 |
| Policy.IsFullDayAbsent | lib/policy.py:20-25 | as written: a day is absent only when both records exist, and then no overtime applies under any rules |
| Policy.LateMinutes | lib/policy.py:28-61 | no actual check-in means no lateness; the only failures are an unparsable cutoff or lunch start |
| Policy.LateMinutesWith | lib/policy.py:30-61 | the same, with the two clock times already parsed |
| Policy.LateReport | lib/policy.py:43-61 | the lunch hour is subtracted exactly when it is deducted, and the range runs from the cutoff to the actual check-in |
| Policy.LateMinutesExact | lib/policy.py:34-61 | the lateness is zero at or before the cutoff, and otherwise the minutes past it, less 60 when more than 120 and the check-in is after lunch start |
| Policy.LateZeroWhenOnTime | lib/policy.py:31-38 | no lateness without a check-in or at or before the cutoff |
| Policy.LateMinutesAfterCutoff | lib/policy.py:40-61 | after the cutoff the lateness is positive, above 60 when the lunch hour is deducted, the raw minutes up to 120, and the range names the cutoff and the check-in |
| Policy.FloorDiv | lib/policy.py:41 | Python's `//`: the quotient rounded toward negative infinity |
| Policy.ExpectedCheckout | lib/policy.py:73 | under the default rules the expected checkout is nine hours (eight of work, one of lunch) after check-in |
| Policy.RoundOvertime | lib/policy.py:83-84 | with a positive increment the applicable overtime is at most the raw overtime and short of it by less than one increment |
| Policy.OvertimeMinutes | lib/policy.py:64-90 | the only failure is a zero overtime increment (Python's ZeroDivisionError) |
| Policy.OvertimeReport | lib/policy.py:83-90 | the raw and applicable minutes as given, and the range from the expected checkout to the actual checkout |
| Policy.NoOvertimeUnlessPastExpected | lib/policy.py:66-76 | no overtime unless both actual times exist and the checkout is after check-in plus work and lunch hours |
| Policy.RoundOvertimeBounds | lib/policy.py:83-84 | the applicable overtime is the minimum plus a whole number of increments, no more than the raw overtime and less than one increment below it |
| Policy.OvertimeRounding | lib/policy.py:78-90 | overtime below the minimum reports the raw minutes with nothing applicable; otherwise the applicable minutes are rounded down to an increment step |
| Policy.OvertimeExamples | lib/policy.py:64-90 | with the default rules, 89 and 119 minutes give 60 applicable, 121 gives 120, and 59 gives nothing applicable |
| Policy.DefaultOvertime | lib/policy.py:64-90 | with the default rules, any overtime below 60 minutes gives nothing applicable and otherwise the rounded value |
| Analyzer.ParseAttendanceLine | attendance_analyzer.py:221-261 | a line gives a record exactly when it has at least three fields, a readable scheduled time and the type "上班" or "下班"; the record's date, times, type and other fields come from the padded fields |
| Analyzer.ParseAttendanceLineAgreesWithParseLine | attendance_analyzer.py:221-261 | the analyzer accepts exactly the lines the library parser accepts, with the same times, type and note |
| Analyzer.PolicyAbsentImpliesAnalyzerAbsent | attendance_analyzer.py:438-450 | a day the policy module calls absent is absent for the analyzer too |
| Analyzer.AbsenceDefinitionsDiffer | attendance_analyzer.py:438-450 | a day with no check-in record is absent for the analyzer but not for the policy module |
| Analyzer.IsFullDayAbsent | attendance_analyzer.py:438-450 | a missing record makes the day absent; a day that is not absent has both records, each with an actual time |
| Analyzer.AbsenceAsTested | test/test_policy.py:36-82 | the four days of the absence test get the expected answers: no actual times, no check-in record and no check-out record are absent; both records with actual times are not |
| Analyzer.PolicyAbsenceMissesTests | lib/policy.py:20-25 | as written, the policy module calls a day with no check-in record, or no check-out record, not absent |
| Analyzer.LateMinutes | attendance_analyzer.py:378-407 | lateness is never negative and is positive exactly when the actual check-in is after 10:30 |
| Analyzer.LateMinutesIsPolicyBody | attendance_analyzer.py:378-407 | the analyzer's lateness is the policy calculation with 10:30 and 12:30 |
| Analyzer.LateMinutesAgreesWithRules | attendance_analyzer.py:378-407 | it agrees with the policy module under any rules with that cutoff and lunch start |
| Analyzer.LateMinutesAgreesWithPolicy | attendance_analyzer.py:378-407 | it agrees with the policy module under the default rules |
| Analyzer.OvertimeMinutes | attendance_analyzer.py:409-436 | the applicable overtime is zero or between the 60-minute minimum and the raw overtime |
| Analyzer.OvertimeMinutesAgreesWithPolicy | attendance_analyzer.py:409-436 | the applicable overtime always agrees with the policy module's; below the minimum the analyzer reports no overtime at all, and at or above it the same result |
| Analyzer.OvertimeAgreesAboveMinimum | attendance_analyzer.py:409-436 | at or above the minimum both compute the same report |
| Analyzer.EvaluateAllStep | attendance_analyzer.py:307-376 | one more work day appends that day's issues and moves the usage on |
| Analyzer.DateLeIsTotalPreorder | attendance_analyzer.py:301 | the sort key, the date, is a total preorder on work days |
| Analyzer.DayGroups | attendance_analyzer.py:279-299 | one work day per distinct date, in first-seen order, holding that date's last check-in and last checkout |
| Analyzer.EvaluateDayOutcome | attendance_analyzer.py:307-376 | an absent day gives WFH on a Friday, leave on other weekdays and nothing on a holiday; an attended Friday gives nothing; an attended weekday gives at most a late or forget-punch issue exactly when late, then an overtime issue exactly when enough overtime applies; all on the day's date |
| Analyzer.WeekdayOutcome | attendance_analyzer.py:339-376 | the attended-weekday case of the above |
| Analyzer.DayIssuesOnItsDate | attendance_analyzer.py:307-376 | every issue of a day carries that day's date |
| Analyzer.LateStepShape | attendance_analyzer.py:339-365 | the lateness step gives one late or forget-punch issue exactly when the day is late |
| Analyzer.SuggestionDurations | attendance_analyzer.py:311-327 | the WFH suggestion is nine hours and the leave suggestion eight |
| Analyzer.ForgetPunchDecision | attendance_analyzer.py:341-365 | a forget-punch is used exactly when the lateness is at most 60 minutes and the month has used fewer than two; it takes no leave and adds one to the month's usage; otherwise a late issue of the late minutes with the reason "超過1小時" exactly when over 60 minutes |
| Analyzer.DayUsage | attendance_analyzer.py:341-352 | a day changes only its own month's usage, by one, and only below the allowance |
| Analyzer.UsageWithinAllowance | attendance_analyzer.py:303-376 | over a run a month's usage never falls and never passes the allowance of two (or its starting value) |
| Analyzer.LateStepForgetPunches | attendance_analyzer.py:341-365 | the lateness step's forget-punch issues in a month equal its rise in that month's usage |
| Analyzer.DayForgetPunches | attendance_analyzer.py:307-376 | one day's forget-punch issues in a month equal its rise in that month's usage |
| Analyzer.ForgetPunchCountMatchesUsage | attendance_analyzer.py:303-376 | over a run, the forget-punch issues dated in a month are exactly the rise in that month's usage |
| Analyzer.IssuesOnWorkDays | attendance_analyzer.py:303-376 | every issue is dated on one of the work days |
| Analyzer.IssuesInDateOrder | attendance_analyzer.py:303-376 | over date-ordered work days the issues come out in date order |
| Analyzer.BuiltDaysAreGroups | attendance_analyzer.py:270-301 | the sorted work days are the day groups, each one present both ways |
| Analyzer.BuiltDayIsGroup | attendance_analyzer.py:301 | sorting adds no work day |
| Analyzer.GroupIsBuiltDay | attendance_analyzer.py:301 | sorting loses no work day |
| Analyzer.BuiltDaysHoldLastRecords | attendance_analyzer.py:279-299 | every built day holds its date's last check-in and checkout and is a holiday exactly when its date is one |
| Analyzer.DayGroupsDistinct | attendance_analyzer.py:279-299 | no work day is built twice |
| Analyzer.BuiltDaysSorted | attendance_analyzer.py:301 | the built days are in date order |
| Analyzer.BuiltDaysStrictlyOrdered | attendance_analyzer.py:279-301 | the built days are in strictly increasing date order, one per date |
| Analyzer.BuiltDayHasRecords | attendance_analyzer.py:279-299 | every built day's date is carried by some record |
| Analyzer.RecordDateHasBuiltDay | attendance_analyzer.py:279-299 | every dated record has a built day for its date |
| Analyzer.CollectSlots | attendance_analyzer.py:279-289 | the first loop finds the dates in first-seen order and, for each, the last check-in and the last other record |
| Analyzer.BuildGroups | attendance_analyzer.py:291-299 | the second loop builds exactly the day groups |
| Analyzer.AttendanceAnalyzer.constructor | attendance_analyzer.py:76-82 | every list, set and map starts empty |
| Analyzer.AttendanceAnalyzer.GroupRecordsByDay | attendance_analyzer.py:270-301 | the day groups are appended to the work days and the whole list is sorted by date; nothing else changes |
| Analyzer.AttendanceAnalyzer.RecordLateness | attendance_analyzer.py:339-365 | the lateness step's issue is appended and the month's usage moved on, nothing else |
| Analyzer.AttendanceAnalyzer.EvaluateOneDay | attendance_analyzer.py:307-376 | one loop iteration appends the day's issues and updates the usage |
| Analyzer.AttendanceAnalyzer.AnalyzeAttendance | attendance_analyzer.py:303-376 | the issues are rebuilt from empty over all work days in order, and the usage carried along |
| State.FirstWithSource | lib/state.py:65-69 | the index of the first range of that source file, or none exactly when no range has it |
| State.ReplaceOrAppendShape | lib/state.py:63-71 | a range of a new source file goes last; otherwise the first range of its source file is replaced in place and every other range stays |
| State.ReplaceOrAppendIdempotent | lib/state.py:63-71 | recording the same range twice is recording it once, and the range is then stored |
| State.UpdatedUser | lib/state.py:55-73 | an update adds at most one range, and without usage counts leaves the counts as they were |
| State.MergeUsage | lib/state.py:72-73 | `dict.update`: the keys of both maps, the given counts win, the others are kept |
| State.MergeNothing | lib/state.py:72 | a missing or empty usage map changes nothing |
| State.OverlapsWith | lib/state.py:80-87 | at most one overlap per stored range, each inside the new range; none when a stored date does not parse |
| State.OverlapsFailureSticks | lib/state.py:80-82 | once a stored date fails to parse the whole call fails |
| State.OverlapsAreIntersections | lib/state.py:83-86 | every reported overlap is non-empty and is the intersection of the new range with some stored range |
| State.NoOverlapWhenDisjoint | lib/state.py:83 | a new range that meets no stored range reports no overlap |
| State.Overlaps | lib/state.py:75-87 | a new date that does not parse fails the call; otherwise there is at most one overlap per stored range |
| State.Unprocessed | lib/state.py:90-128 | no more days come out than went in |
| State.UnprocessedMembers | lib/state.py:90-128 | a day is returned exactly when it is one of the complete days and no well-formed processed range covers it, bounds included |
| State.NoRangesKeepsAllDays | lib/state.py:100 | with no ranges (`None` or empty) every day is returned, in order |
| State.UnprocessedIgnoresRangeOrder | lib/state.py:90-128 | the result depends only on which ranges are stored, not on their order or repetition |
| State.Normalised | lib/state.py:100-107 | at most one span per range |
| State.InSomeSpanAppend | lib/state.py:112-117 | a day is in spans plus one more exactly when it is in the spans or the new one |
| State.ProcessedAppend | lib/state.py:100-107 | a day is covered by ranges plus one more exactly when the ranges or the new one cover it |
| State.NormalisedCovers | lib/state.py:100-107 | skipping malformed ranges loses no covered day and adds none |
| State.StartLeIsTotalPreorder | lib/state.py:110 | the sort key, the start, is a total preorder on spans |
| State.PermutedSpansCover | lib/state.py:110 | sorting the spans changes no covered day |
| State.Merged | lib/state.py:111-117 | merging never gives more spans than it is given, and some span when given any |
| State.MergedStartsBounded | lib/state.py:111-117 | every merged start is an input start, so none exceeds the last input start |
| State.SeparatedAppend | lib/state.py:113-114 | appending a span that starts after the last end keeps spans separated |
| State.SeparatedExtendLast | lib/state.py:116-117 | widening the last merged span keeps spans separated |
| State.MergedSeparated | lib/state.py:110-117 | merging sorted spans gives separated spans: starts in order, each after every earlier end |
| State.MergedCovers | lib/state.py:110-117 | merging sorted spans covers exactly the days the spans cover |
| State.Starts | lib/state.py:121 | the starts of the merged spans, in order |
| State.BisectRight | lib/state.py:124 | `bisect_right`: every element before the result is at most the day and every one from it on is greater |
| State.LookupFindsCover | lib/state.py:124-125 | in separated spans a day is covered exactly when it lies in the last span starting at or before it |
| State.NormaliseRanges | lib/state.py:99-107 | the loop gives the spans of the well-formed ranges, in stored order |
| State.SortAndMerge | lib/state.py:110-117 | the merged spans are separated and cover exactly the days the ranges cover |
| State.Covered | lib/state.py:121-126 | the binary-search lookup answers exactly whether some span covers the day |
| State.FilterUnprocessedDates | lib/state.py:90-128 | `filter_unprocessed_dates` returns exactly the uncovered complete days, in order |
| State.MergeSpans | lib/state.py:111-117 | the merge loop, overwriting the last span in place, computes the merged spans |
| State.AttendanceStateManager.constructor | lib/state.py:14-30 | the stored users when the state file could be read, otherwise none |
| State.AttendanceStateManager.GetUserProcessedRanges | lib/state.py:39-42 | the user's ranges, `[]` for an unknown user |
| State.AttendanceStateManager.GetForgetPunchUsage | lib/state.py:44-47 | the stored count, 0 for an unknown user or month |
| State.AttendanceStateManager.GetLastAnalysisTime | lib/state.py:49-53 | "" for an unknown user or no ranges; otherwise the greatest analysis time, which is one of the ranges' |
| State.AttendanceStateManager.UpdateUserState | lib/state.py:55-73 | only that user's entry changes: the range is recorded in place or appended, and the given counts are stored |
| State.AttendanceStateManager.DetectDateOverlap | lib/state.py:75-87 | the overlaps of the new range with the user's stored ranges, failing on an unparsable date |
| State.RecordRange | lib/state.py:63-71 | the scan-and-replace loop computes the recorded range list |
| State.UpdatedUserHolds | lib/state.py:55-73 | after an update the range is stored and every given month has its given count |
| State.FindSource | lib/state.py:65-69 | the scan stops at the first range of the source file, or at the end when there is none |
| State.AnalysisTimes | lib/state.py:53 | one analysis time per range, in order |
| State.LatestOfTimes | lib/state.py:53 | the greatest analysis time bounds every range's and is one of them |
| Grouping.GroupDaily | lib/grouping.py:8-22 | there is one entry per date that some record carries, and its two slots hold the last check-in record and the last other record of that date; records without a date are skipped |
| Dates.YearsFromRecords | lib/dates.py:11-17 | the set holds exactly the calendar years of the records that carry a date |
| Dates.HasKindStep | lib/dates.py:22-33 | one more record can set only its own date's flag for its own kind |
| Dates.CollectFlags | lib/dates.py:22-33 | the dict's keys, in insertion order, are the distinct record dates, and each flag is set exactly when some record of that date fills that slot |
| Dates.SelectComplete | lib/dates.py:35-38 | the kept keys are exactly those whose two flags are set, each kept once |
| Dates.SortDays | lib/dates.py:39 | sorting distinct days gives a strictly ascending list with the same members |
| Dates.IdentifyCompleteWorkDays | lib/dates.py:20-39 | the result is strictly ascending and holds exactly the dates that have both a check-in and a check-out record |
| Parser.LeadingDigits | lib/parser.py:11 | the `\d+` of the marker pattern: the longest run of digits at the start of the text |
| Parser.MarkerLength | lib/parser.py:11 | the measured marker never extends past the line (what it measures is stated by the next three lemmas) |
| Parser.MarkerLengthSound | lib/parser.py:9-11 | a non-zero length measures a prefix made of whitespace, at least one digit and "→" |
| Parser.MarkerLengthComplete | lib/parser.py:9-11 | every marker prefix of the line has exactly the measured length, so the match is unique |
| Parser.NoMarkerWhenZero | lib/parser.py:9-11 | a zero length means that no prefix of the line is a marker |
| Parser.CleanLine | lib/parser.py:9-11 | the result is a suffix of the line; it is shorter exactly when the line starts with a marker, and then what was removed is such a marker |
| Parser.PadFields | lib/parser.py:14-19 | the result has max(len(parts), expected) fields, starts with the original parts and is padded only with "" |
| Parser.SplitFields | lib/parser.py:14-19 | the padding loop computes the padded split: the original fields first, then "" up to `expected` |
| Parser.Fields | lib/parser.py:34-35 | a cleaned and padded line has at least nine fields, so fields 0-8 exist |
| Parser.ParseLine | lib/parser.py:29-58 | a line is accepted exactly when its scheduled field is non-empty and parses and its type is "上班" or "下班"; the record takes the scheduled time, the actual time when that field is non-empty, and the other fields as they stand |
| Parser.ShortLineRejected | lib/parser.py:35-41 | a line with fewer than three tab-separated fields is rejected |
| Filename.Stem | lib/filename.py:15 | the stem is what precedes the "-出勤資料.txt" suffix that ends the name, with `$` also allowing one final newline |
| Filename.MatchStem | lib/filename.py:15 | a match splits the stem into well-formed pieces (six digits, an optional second six digits and a non-empty name) that rebuild it |
| Filename.MatchName | lib/filename.py:15-16 | a match yields well-formed pieces that rebuild the whole name, up to one final newline |
| Filename.MatchCompose | lib/filename.py:15-16 | reading back a name built from well-formed pieces gives those pieces, unless a name without a second month itself starts like one (the lazy `.+?` and the optional group) |
| Filename.DigitsValueStep | lib/filename.py:25-26 | the value of a digit string grows by ten times plus the next digit |
| Filename.SegmentValues | lib/filename.py:25-26 | `int(s[:4])` and `int(s[4:6])` are the year and month written digit by digit |
| Filename.DayBeforeNextMonth | lib/filename.py:36-39 | the day before the first of the next month is the last day of the month, across a year boundary too |
| Filename.ResolveAsWritten | lib/filename.py:20-51 | on success the range keeps the user name and starts on the first day of the start month; errors from `datetime` are `Failure` |
| Filename.ParseRangeAndUserAsWritten | lib/filename.py:6-51 | a base name that does not match gives (None, None, None); otherwise the result is that of the captured pieces |
| Filename.Resolve | lib/filename.py:20-51 | corrected: an answer has both months in 1-12 and runs from the first day of the start month to the last day of the end month (the start month when there is none) |
| Filename.ParseRangeAndUser | lib/filename.py:6-51 | corrected: no match gives no answer; otherwise the answer is that of the captured pieces |
| Filename.BadMonthRejected | lib/filename.py:24-41 | corrected: a month outside 1-12 in either segment gives no answer |
| Filename.AsWrittenAgreesOnValidMonths | lib/filename.py:24-51 | where the end segment is a real month, the code as written and the corrected version agree |
| Filename.MatchOfExample | lib/filename.py:14-16 | a literal name with two month segments and a plain user name is read back into exactly those pieces |
| Filename.Segment202501 | lib/filename.py:25-26 | "202501" is year 2025, month 1 |
| Filename.Segment202500 | lib/filename.py:34-35 | "202500" is year 2025, month 0 |
| Filename.Segment000112 | lib/filename.py:25-26 | "000112" is year 1, month 12 |
| Filename.Segment000012 | lib/filename.py:34-35 | "000012" is year 0, month 12 |
| Filename.ExampleMatch | lib/filename.py:14-22 | the example names with user "王小明" resolve exactly as their captured pieces do |
| Filename.EndMonthZeroAccepted | lib/filename.py:32-39 | as written, "202501-202500-王小明-出勤資料.txt" is accepted with a range ending on 2024-12-31; the corrected version rejects it |
| Filename.YearZeroDecemberRaises | lib/filename.py:32-41 | as written, "000112-000012-…" raises instead of returning (None, None, None), because `datetime(1, 1, 1) - timedelta(days=1)` overflows; the corrected version gives no answer |
| Filename.NonDigitSecondSegmentIsName | lib/filename.py:15 | a second segment that is not six digits becomes part of the user name |
| Report.JoinWithChars | lib/report.py:18 | a `", ".join` contains no character that neither the parts nor the separator contain |
| Report.JoinWithHasParts | lib/report.py:18 | every part appears in the join |
| Report.PreviewNamesFirstFive | lib/report.py:17-21 | the date preview names each of the first five unprocessed dates |
| Report.PreviewTail | lib/report.py:18-20 | the preview ends with " 等 N 天" exactly when there are more than five dates (N being their number), provided the dates do not contain that marker themselves |
| Report.BuildPreview | lib/report.py:18-20 | the preview the function assembles is the first five dates joined by ", ", plus the tail past five |
| Report.Preview | lib/report.py:17-21 | five dates or fewer are all listed, joined by ", ", with no tail |
| Report.BuildIncrementalLines | lib/report.py:8-23 | the header, user, total, new and skipped lines in that order (skipped = total - new), the date preview line only when there are dates, and a closing blank line |
| Report.NumberedLines | lib/report.py:33-36 | one numbered line per issue |
| Report.NumberedLinesAt | lib/report.py:33-36 | the k-th issue's line carries the number k + 1 (enumerate from 1) |
| Report.NumberedLineStartsWithDigit | lib/report.py:35 | an issue's first line starts with a digit, so it can never be mistaken for a time-range or calculation line |
| Report.NumberedLinesAreNumbered | lib/report.py:33-36 | every head line of a section starts with a digit |
| Report.BlocksStep | lib/report.py:33-41 | one more issue appends exactly its own block |
| Report.BuildIssueSection | lib/report.py:26-42 | no lines for no issues; otherwise the title line followed by each issue's block, numbered from 1 |
| Report.HasLineWithAppend | lib/report.py:37-40 | a line with a given prefix is in a concatenation exactly when it is in one of the parts |
| Report.IssueBlockLines | lib/report.py:37-40 | a block has a "⏰ 時段" line exactly when the issue has a time range, and a "🧮 計算" line exactly when calculations are shown and the issue has one |
| Report.SomeInInit | lib/report.py:37-40 | some issue has a calculation (a time range) exactly when one of the earlier ones or the last one has |
| Report.BlocksLines | lib/report.py:33-41 | the blocks have a calculation line exactly when calculations are shown and some issue has one, and a time-range line exactly when some issue has one |
| Report.SectionLines | lib/report.py:26-42 | the same two equivalences for the whole section body |
| Report.BlocksHaveHeads | lib/report.py:34-36 | every issue's head line is among the blocks |
| Report.SectionNumbersIssues | lib/report.py:33-36 | the k-th issue's line, numbered k + 1, is in the section |
| Report.BuildSummary | lib/report.py:45-53 | six lines: the header, then one line per category in the fixed order forget-punch, late, overtime, leave, WFH, each with its own count |
| Report.SummaryCoversEachKindOnce | lib/report.py:47-52 | every category appears in the summary's order exactly once |
| CsvExport.RowWriter.constructor | lib/csv_exporter.py:47 | a new writer has written no rows |
| CsvExport.RowWriter.WriteRow | lib/csv_exporter.py:9 | `writerow` appends exactly that row and changes nothing else |
| CsvExport.Headers | lib/csv_exporter.py:5-8 | the six fixed columns, then "狀態" exactly in incremental mode |
| CsvExport.WriteHeaders | lib/csv_exporter.py:5-9 | one row, the header, is appended to what the writer holds |
| CsvExport.StatusMessageNames | lib/csv_exporter.py:17 | the status message names the last processed date and ends with the time of the previous analysis |
| CsvExport.StatusRow | lib/csv_exporter.py:13-21 | seven cells: the last date first and the status message fourth |
| CsvExport.WriteStatusRow | lib/csv_exporter.py:12-22 | exactly the status row is appended |
| CsvExport.IssueRow | lib/csv_exporter.py:27-36 | six cells from the issue, then, in incremental mode only, "[NEW] 本次新發現" or "已存在" by `is_new` |
| CsvExport.IssueCells | lib/csv_exporter.py:27-34 | six cells per issue |
| CsvExport.IssueRows | lib/csv_exporter.py:26-37 | one row per issue, in order |
| CsvExport.IssueRowsStep | lib/csv_exporter.py:26-37 | one more issue appends exactly its row |
| CsvExport.WriteIssueRows | lib/csv_exporter.py:25-37 | the loop appends the rows of all issues, in order, after what was there |
| CsvExport.StatusRows | lib/csv_exporter.py:49-51 | a status row exactly when status is given, the mode is incremental and there is no issue |
| CsvExport.SaveCsv | lib/csv_exporter.py:40-56 | a fresh file receives exactly the header, the status row when it applies and the issue rows |
| CsvExport.CsvLayout | lib/csv_exporter.py:46-56 | the header comes first, the status row second exactly when it applies, and then the k-th issue's row for each k |
| CsvExport.RowsMatchHeader | lib/csv_exporter.py:5-37 | every row of the file is as wide as the header row, in both modes |
| Service.NormalizedMode | lib/service/analyzer.py:87-90 | exactly "incremental" and "full" are accepted, each as itself; anything else raises AnalysisError |
| Service.NormalizedFormat | lib/service/analyzer.py:92-95 | exactly "excel" and "csv" are accepted, each as itself; anything else raises AnalysisError |
| Service.NormalizeNames | lib/service/analyzer.py:87-95 | every mode and format is accepted back under its own name |
| Service.Export | lib/service/analyzer.py:238-265 | an export fails exactly for an Excel request whose file and csv fallback are both missing; a missing Excel file falls back to the path with ".xlsx" replaced by ".csv", and otherwise the requested path and format are kept |
| Service.CountKind | lib/service/analyzer.py:271 | a type's count is at most the number of issues |
| Service.KindCountsAddUp | lib/service/analyzer.py:268-280 | the five type counts add up to the number of issues |
| Service.ServiceTotals | lib/service/analyzer.py:268-280 | TOTAL is the number of issues and the sum of the five counts |
| Service.TotalsOfAppend | lib/service/analyzer.py:268-280 | one more issue raises its own type's count and the total by one |
| Service.PreviewOf | lib/service/analyzer.py:300-313 | a preview carries a status exactly in incremental mode |
| Service.PointwiseAppend | lib/service/analyzer.py:299-313 | appending the next issue's preview keeps the preview pointwise |
| Service.Preview | lib/service/analyzer.py:295-315 | the preview of exactly the first `max(limit, 0)` issues, in order |
| Service.ResetUserState | lib/service/analyzer.py:317-336 | the user's state is deleted exactly when it exists and debug mode is off, and the answer says whether it was |
| Service.EmitProgress | lib/service/analyzer.py:338-350 | it raises exactly when the cancel event is set |
| Service.CheckCancel | lib/service/analyzer.py:353-355 | it raises exactly when the cancel event is set |
| Service.DecisionCases | lib/service/analyzer.py:153-157 | a named user with no ranges is a first-time user and gets incremental loading with full mode reported; anyone else gets the requested mode |
| Service.Decide | lib/service/analyzer.py:153-157 | a first-time user is analysed incrementally and reported as a full run; anyone else gets the requested mode |
| Service.NoCancelExtend | lib/service/analyzer.py:170-196 | a check that finds no cancel extends the run of checks that found none |
| Service.RunStages | lib/service/analyzer.py:170-181 | the three stages of the corrected run finish exactly when none of their six checks finds the cancel event set |
| Service.ExportAll | lib/service/analyzer.py:190-192 | every request is exported in order, one file each; a failure is the error of one of the requests, and there is none when every request can be exported |
| Service.StagesAndExport | lib/service/analyzer.py:170-196 | without failure no check saw a cancel and every request was exported; any cancel seen is reported as AnalysisCancelled; with no cancel and every request exportable there is no failure |
| Service.FinishRun | lib/service/analyzer.py:170-235 | a completed run saw no cancel, exported every request, reports the first output's format (or the requested one), counts the issues and previews them; the run completes whenever no check sees a cancel and every request can be exported |
| Service.Run | lib/service/analyzer.py:131-235 | corrected (the collaborators built without the keywords they do not take): a bad mode, format or missing source raises AnalysisError and a reset without a user ResetStateError, leaving the state alone; valid options, a user for any reset, no cancel and exportable requests give a completed run, which carries the mode decision, the reset outcome, every export, the totals and the preview |
| Service.RunAsWritten | lib/service/analyzer.py:131-145 | as written no run completes: bad options or a missing source raise AnalysisError, and every other run raises TypeError where the state manager is built |
| Service.AsWrittenRaisesTypeError | lib/service/analyzer.py:145 | as written, a plain full run of an existing file raises TypeError, and so does a reset requested without a user |
| Server.ReplaceChar | server/main.py:142 | `str.replace` of one character: same length, every occurrence replaced and nothing else |
| Server.FlattenSeparators | server/main.py:142 | no "/" or "\\" is left, and a name without them is unchanged |
| Server.DropTxtSuffix | server/main.py:143-144 | a prefix of the name, shorter exactly when the name ends in ".txt" in any letter case |
| Server.SanitizeName | server/main.py:141-145 | the stem is never empty and has no path separator |
| Server.SanitizeStem | server/main.py:140-145 | for any upload name, including none, the stem is non-empty and has no path separator |
| Server.BasenameAfterSlash | server/main.py:141 | a directory in front of the name does not change its base name |
| Server.LowerAppend | server/main.py:143 | lower-casing distributes over concatenation |
| Server.DropTxtKeeps | server/main.py:143 | a name not ending in ".txt" is kept whole |
| Server.DropTxtRemoves | server/main.py:143-144 | a ".txt" suffix of any case is removed |
| Server.SanitizePlainName | server/main.py:140-145 | a plain name keeps its stem, with or without a ".txt" suffix |
| Server.DefaultStemIsPlain | server/main.py:141 | "analysis" is its own stem |
| Server.TxtSuffixesLower | server/main.py:143 | ".txt" and ".TXT" both lower-case to ".txt" |
| Server.SanitizeKeepsPlainStem | server/main.py:140-145 | a plain upload name, with ".txt", ".TXT" or no suffix, gives itself as stem |
| Server.SanitizeStemOfName | server/main.py:141 | a non-empty upload name is used as given |
| Server.SanitizeIgnoresDirectory | server/main.py:141 | only the last component of the upload name matters |
| Server.PreferredPath | server/main.py:148-151 | the stem, "_analysis" and ".xlsx" for Excel or ".csv" for CSV |
| Server.CanonicalOutputPath | server/main.py:148-156 | the csv path replaces the preferred one exactly when an Excel output is absent and its csv fallback exists |
| Server.BackupsToMap | server/main.py:244-248 | the map's names are exactly the names of the listed backups |
| Server.LastItemWins | server/main.py:244-248 | a name maps to the size and mtime of its last listed item, 0 for a missing field |
| Server.ListingOrderIrrelevant | server/main.py:244-248 | with distinct names the map does not depend on listing order |
| Server.StrictEqualIgnoresListingOrder | server/main.py:251-262 | strict equality does not depend on the order in which backups are listed |
| Server.SnapshotsCleanupCompatible | server/main.py:265-304 | compatible snapshots agree on the delete-canonical flag and the export policy |
| Server.CompatibleChangeIsOneNewBackup | server/main.py:281-304 | a compatible change of the backups happens only under the archive policy with a canonical file, and is exactly one new backup with none lost |
| Server.ArchiveAcceptsRenamedCanonical | server/main.py:281-304 | under the archive policy one new backup of the canonical file's size is accepted |
| Server.VanishedBackupRejected | server/main.py:274-292 | a backup that vanished since the preview is never accepted |
| Server.StrictEqualIsCompatible | server/main.py:251-304 | strictly equal snapshots are compatible under either policy |
| Server.SnapshotsStrictEqual | server/main.py:251-262 | every snapshot is strictly equal to itself |
| Server.ServerTotals | server/main.py:124-134 | TOTAL is the number of issues and the sum of the five counts |
| Server.TotalsAgree | server/main.py:124-134 | the web service's totals equal the analysis service's |
| Server.EnvFlag | server/main.py:307-311 | an unset variable gives the default |
| Server.StripIsTrimmed | server/main.py:311 | a stripped value has no surrounding white space |
| Server.LowerCharKeepsSpace | server/main.py:311 | lower-casing keeps white space white space |
| Server.LowerKeepsTrimmed | server/main.py:311 | lower-casing a stripped value leaves it stripped |
| Server.LowerIdempotent | server/main.py:311 | lower-casing twice is lower-casing once |
| Server.EnvFlagNormalised | server/main.py:307-311 | surrounding white space and letter case of the value do not matter |
| Server.DownloadRejected | server/main.py:581-582 | an accepted session id or file name is never ".." |
| Server.AcceptedPathComponents | server/main.py:581-584 | an accepted pair joins into exactly two path components, the session id and the file name |
| ExportCleanup.BackupNameMatches | lib/export_cleanup.py:9-22 | every name made of the stem, "_", eight digits, "_", six digits and the extension matches |
| ExportCleanup.MatchIsBackupName | lib/export_cleanup.py:12-22 | only such names match: a match is the stem, "_", a timestamp and the extension, in that order |
| ExportCleanup.CanonicalNeverMatches | lib/export_cleanup.py:12-22 | the canonical file itself never matches |
| ExportCleanup.NormComponents | lib/export_cleanup.py:38 | normalised components contain no "" and no "."; ".." only in front and never in an absolute path; each is one of the input components |
| ExportCleanup.JoinLeadingEmpty | lib/export_cleanup.py:38 | joining behind an empty component puts a "/" in front |
| ExportCleanup.SlashJoinSplit | lib/export_cleanup.py:38-39 | a leading slash splits off as one empty component |
| ExportCleanup.DoubleSlashJoinSplit | lib/export_cleanup.py:38-39 | two leading slashes split off as two empty components |
| ExportCleanup.NormPathSplit | lib/export_cleanup.py:38-39 | splitting the normalised path on "/" gives the normalised components behind the kept leading slashes |
| ExportCleanup.NormPath | lib/export_cleanup.py:38 | `normpath` never returns an empty path, and an absolute path stays absolute |
| ExportCleanup.Traverses | lib/export_cleanup.py:38-40 | the empty path is never refused |
| ExportCleanup.TraversesIff | lib/export_cleanup.py:38-40 | a path is refused exactly when a ".." survives normalisation |
| ExportCleanup.AbsoluteNeverTraverses | lib/export_cleanup.py:38-40 | an absolute path is never refused |
| ExportCleanup.NoParentNeverTraverses | lib/export_cleanup.py:38-40 | a path without a ".." component is never refused |
| ExportCleanup.LeadingParentTraverses | lib/export_cleanup.py:38-40 | a path that starts with "../" is refused |
| ExportCleanup.ParentKeptInFront | lib/export_cleanup.py:38 | a relative path's leading ".." survives normalisation |
| ExportCleanup.PathSplit | lib/export_cleanup.py:42 | the file name part holds no "/" |
| ExportCleanup.RStripSlashes | lib/export_cleanup.py:42 | stripping trailing slashes never lengthens the directory |
| ExportCleanup.SplitExt | lib/export_cleanup.py:49 | stem and extension put back together give the name, and a non-empty extension is one "." and no other |
| ExportCleanup.LastIndex | lib/export_cleanup.py:49 | the index of the last occurrence, none exactly when the character is absent |
| ExportCleanup.BackupPaths | lib/export_cleanup.py:53-62 | at most one path per directory entry |
| ExportCleanup.BackupPathsExact | lib/export_cleanup.py:53-62 | the paths are exactly the plain matching entries joined to the directory |
| ExportCleanup.ListBackups | lib/export_cleanup.py:25-66 | the method returns what `list_backups` returns or raises: ValueError on traversal, nothing for a missing or vanished directory, otherwise the backups in listing order |
| ExportCleanup.CollectBackups | lib/export_cleanup.py:53-62 | the listing loop keeps exactly the matching plain entries, in order |
| ExportCleanup.Disk.constructor | lib/export_cleanup.py:79 | the disk holds the given files and refuses the given removals |
| ExportCleanup.Disk.Remove | lib/export_cleanup.py:79-87 | `os.remove`: a missing file reports FileNotFoundError, a refused one an OS error, otherwise the file is gone; nothing else changes |
| ExportCleanup.RemoveEach | lib/export_cleanup.py:77-87 | removal only ever takes files away |
| ExportCleanup.RemoveEachExact | lib/export_cleanup.py:77-87 | a backup is reported removed exactly when it was listed, present and not refused; exactly those files are gone |
| ExportCleanup.RemoveEachDistinct | lib/export_cleanup.py:77-87 | no path is reported removed twice |
| ExportCleanup.RemoveBackups | lib/export_cleanup.py:76-87 | the removal loop removes and reports exactly what the removal function says |
| ExportCleanup.CleanupExports | lib/export_cleanup.py:69-98 | the result and the files left are those of the cleanup function, and refusals never change |
| ExportCleanup.CleanupContract | lib/export_cleanup.py:69-98 | the removed backups are exactly the present, removable listed ones; without the canonical flag that is the whole result; the canonical path is added last only when asked for and it was present and removable, and it is then gone |
| Recent.RecentFile.constructor | lib/recent.py:37-38 | the store holds the stored "recent" list |
| Recent.Take | lib/recent.py:51-52 | the first `n` elements, or all when there are fewer |
| Recent.Visible | lib/recent.py:40-50 | at most one path per stored item |
| Recent.LoadFromTakes | lib/recent.py:40-52 | below the limit the loop appends the first visible paths until the limit is reached |
| Recent.LoadFrom | lib/recent.py:40-51 | the loop only appends: the paths gathered so far stay at the front |
| Recent.LoadRecentFiles | lib/recent.py:36-53 | the loading loop returns what the list function says |
| Recent.LoadIsVisiblePrefix | lib/recent.py:36-53 | for a positive limit, the first `limit` string paths that exist (or all of them when missing files are included), in stored order |
| Recent.VisibleSound | lib/recent.py:40-50 | every path returned is named by a stored string or object and, unless missing files are included, exists |
| Recent.ZeroLimitLoadsOne | lib/recent.py:49-52 | the limit is checked after the append, so a limit of zero still returns the first path |
| Recent.Fresh | lib/recent.py:68-80 | the older entries are objects naming paths not seen before |
| Recent.FreshDistinct | lib/recent.py:68-80 | no two older entries name the same path |
| Recent.NormalizeTakes | lib/recent.py:68-82 | below the limit the loop appends the first fresh entries until the limit is reached |
| Recent.Normalize | lib/recent.py:68-82 | the loop only appends: the entries kept so far stay at the front |
| Recent.AddRecentFile | lib/recent.py:56-88 | an empty path or a failed write leaves the list alone; otherwise the stored list is replaced by the normalised one |
| Recent.StoredListShape | lib/recent.py:62-83 | for a positive limit the new path comes first with the current time, the older distinct paths follow in order, no path repeats and the limit holds |
| Recent.NormalizeAtLimit | lib/recent.py:81-83 | an entry appended past the limit is cut off again by `[:limit]` |
| Recent.ReAddFirstKeepsOrder | lib/recent.py:56-83 | re-adding the most recent path keeps the list as it was, apart from its own time of use |
| Tui.ExistingPaths | tui/recent.py:17-22 | only stored string paths that exist, each from the stored list |
| Tui.LoadRecentFiles | tui/recent.py:17-22 | every path returned is a stored string that exists, and a non-negative limit holds |
| Tui.ExistingIsVisible | tui/recent.py:17-22 | on bare paths, the existing paths are those the shared loader sees |
| Tui.AgreesWithSharedLoader | tui/recent.py:17-22 | with a positive limit the terminal loader and the shared loader return the same paths |
| Tui.FirstIndex | tui/recent.py:31 | the index of the first occurrence |
| Tui.RemoveFirst | tui/recent.py:31 | `list.remove`: the first occurrence goes and the rest stays in order |
| Tui.AddRecentFile | tui/recent.py:25-40 | an empty path or a failed write leaves the list alone; otherwise the path moves to the front and the list is cut to the limit |
| Tui.StoredListShape | tui/recent.py:25-40 | for a positive limit the path is first, the limit holds, and a path stored at most once before is stored exactly once after |
| Tui.TruncateRows | tui/adapters.py:31-37 | the first `limit` rows, none for a limit of zero or less |
| PoToMo.Utf8Char | tools/po_to_mo.py:59-60 | one to four bytes, a single byte exactly for ASCII, which encodes as itself |
| PoToMo.Utf8 | tools/po_to_mo.py:59-60 | `encode('utf-8')`: at least one byte per character, every byte below 256 |
| PoToMo.Utf8Append | tools/po_to_mo.py:59-60 | encoding distributes over concatenation |
| PoToMo.Latin1 | tools/po_to_mo.py:53 | `unicode_escape` decoding without backslashes gives one character per byte |
| PoToMo.UnquoteAsWritten | tools/po_to_mo.py:50-53 | as written, the result is never shorter than the text between the quotes |
| PoToMo.Unquote | tools/po_to_mo.py:50-52 | corrected: the string itself, or the text inside its one surrounding pair of quotes |
| PoToMo.UnquoteStripsOnePair | tools/po_to_mo.py:50-52 | exactly one surrounding pair of quotes is removed |
| PoToMo.UnquoteKeepsInnerQuotes | tools/po_to_mo.py:50-52 | a doubly quoted string keeps its inner quotes |
| PoToMo.Latin1OfAscii | tools/po_to_mo.py:53 | on ASCII text, encoding and decoding give the text back |
| PoToMo.AsWrittenAgreesOnAscii | tools/po_to_mo.py:50-53 | on ASCII text without backslashes `_unquote` as written only strips the quotes |
| PoToMo.AsWrittenGarblesChinese | tools/po_to_mo.py:53 | "中" comes back from `_unquote` as written as the three characters U+00E4, U+00B8 and U+00AD, where the quote stripping alone gives "中" |
| PoToMo.RStripNewlines | tools/po_to_mo.py:21 | `rstrip('\n')`: a prefix of the line that does not end in a newline |
| PoToMo.ParsePo | tools/po_to_mo.py:14-47 | the line loop returns the entries the state machine gives for the file's lines, with the corrected quote stripping |
| PoToMo.RunAppend | tools/po_to_mo.py:20-43 | reading two blocks of lines is reading the first and then the second |
| PoToMo.SkippedLineIgnored | tools/po_to_mo.py:22-23 | a comment or blank line never changes the entries, wherever it stands |
| PoToMo.ClassifyQuoted | tools/po_to_mo.py:36-40 | a quoted line is a continuation carrying the text between the quotes |
| PoToMo.ClassifyMsgid | tools/po_to_mo.py:24-29 | a msgid line carries the text between its quotes |
| PoToMo.ClassifyMsgstr | tools/po_to_mo.py:30-32 | a msgstr line carries the text between its quotes |
| PoToMo.ContinuationLine | tools/po_to_mo.py:36-40 | a quoted line extends the msgid or the msgstr, whichever came last, and does nothing before either |
| PoToMo.StepMsgid | tools/po_to_mo.py:24-29 | a msgid line flushes the pending entry and starts a new one |
| PoToMo.StepMsgstr | tools/po_to_mo.py:30-32 | a msgstr line adds to the pending translation |
| PoToMo.Step | tools/po_to_mo.py:20-43 | a line never removes an entry already read, and completes at most one |
| PoToMo.RunRenderEntry | tools/po_to_mo.py:24-32 | one msgid line and one msgstr line flush what was pending and leave exactly that entry pending |
| PoToMo.RenderRoundTripFrom | tools/po_to_mo.py:20-45 | reading rendered entries appends exactly those entries to what was pending |
| PoToMo.ParseRendered | tools/po_to_mo.py:14-47 | `parse_po` reads back every list of entries written one msgid and one msgstr line each, in order, with nothing lost |
| PoToMo.KeyLeIsTotalPreorder | tools/po_to_mo.py:58 | the sort key, the msgid, is a total preorder |
| PoToMo.SortEntries | tools/po_to_mo.py:58 | a permutation of the entries sorted by msgid |
| PoToMo.SortEntriesStable | tools/po_to_mo.py:58 | `sorted` is stable: the entries with the same msgid keep their order |
| PoToMo.Table | tools/po_to_mo.py:67-76 | one (length, offset) pair per string |
| PoToMo.Ids | tools/po_to_mo.py:59 | the UTF-8 bytes of each msgid, in order |
| PoToMo.Strs | tools/po_to_mo.py:60 | the UTF-8 bytes of each msgstr, in order |
| PoToMo.BuildTable | tools/po_to_mo.py:67-76 | the offset loop builds the table and ends at the offset just past the last string |
| PoToMo.WriteMo | tools/po_to_mo.py:56-90 | the image written is the layout of the entries sorted by msgid |
| PoToMo.TableEndAfterLast | tools/po_to_mo.py:67-76 | the last string ends one NUL byte before the end offset |
| PoToMo.TableEndIsLength | tools/po_to_mo.py:67-90 | the end offset is the start plus the bytes written for the strings |
| PoToMo.TableConsecutive | tools/po_to_mo.py:67-76 | each offset is the previous offset plus its length and one |
| PoToMo.TableAppend | tools/po_to_mo.py:67-76 | the second table continues from where the first ends |
| PoToMo.BlobAppend | tools/po_to_mo.py:86-90 | the bytes of two lists are those of the first and then the second |
| PoToMo.TableOffset | tools/po_to_mo.py:67-76 | the k-th offset is the start plus the bytes of the strings before it |
| PoToMo.TableLocates | tools/po_to_mo.py:67-90 | every table entry locates its string, followed by a NUL byte, in the bytes written |
| PoToMo.ImageHeader | tools/po_to_mo.py:62-80 | the header is the magic number, revision 0, the count, 28 and 28 + 8n; the tables have n entries; the strings start at 28 + 16n and the translations right after the originals |
| PoToMo.ImageConsecutive | tools/po_to_mo.py:67-76 | in each table every string starts right after the previous one's NUL byte |
| PoToMo.ImageLocates | tools/po_to_mo.py:62-90 | the k-th entry of each table locates the k-th original or translation in the file, counting from the start of the file |
| FixImports.BlankIffAllSpace | fix_imports.py:40-41 | a line is blank exactly when it is all white space |
| FixImports.BlankIffStripsEmpty | fix_imports.py:40-41 | a line is blank exactly when `strip()` leaves nothing |
| FixImports.CloseIndex | fix_imports.py:27-28 | the first line from `j` on that contains the closing quote, or the end |
| FixImports.FindClose | fix_imports.py:27-28 | the inner loop stops at that line |
| FixImports.AfterDocstring | fix_imports.py:22-30 | skipping a docstring always moves the scan forward, at most one past the end |
| FixImports.Scan | fix_imports.py:16-97 | a block is found only at an import line |
| FixImports.BlockEnd | fix_imports.py:38-43 | the block ends at the first line that is neither an import nor blank, or at the end |
| FixImports.BlockEndSpans | fix_imports.py:38-43 | every line the block spans is an import line or blank |
| FixImports.NonBlank | fix_imports.py:41-42 | no more lines than given, none of them blank |
| FixImports.ImportLineNotBlank | fix_imports.py:33 | an import line is never blank |
| FixImports.NonBlankSnoc | fix_imports.py:41-42 | one more line is kept exactly when it is not blank |
| FixImports.CollectBlock | fix_imports.py:34-43 | the collecting loop ends at the block's end and keeps its non-blank lines, at least the first |
| FixImports.RStripChar | fix_imports.py:55 | `rstrip(c)`: a prefix of the word without a trailing `c`, having dropped only `c`s |
| FixImports.ModuleKey | fix_imports.py:52-55 | a key exists exactly when the line has two words; it holds no "."; and after `import` it never ends in "," |
| FixImports.TokenOf | fix_imports.py:53 | a run of non-space characters is one word |
| FixImports.WordsOf | fix_imports.py:53 | `split()` of a word and the rest is that word and the rest's words |
| FixImports.WordsAfterSpace | fix_imports.py:53 | leading white space makes no word |
| FixImports.SplitHead | fix_imports.py:53 | the first dotted component of a word with a dot-free head |
| FixImports.WordsOfStatement | fix_imports.py:53 | the second word of `kw word ...` is `word` |
| FixImports.ModuleKeyOfFrom | fix_imports.py:52-53 | `from pkg[.sub] ...` has the key `pkg` |
| FixImports.ModuleKeyOfImport | fix_imports.py:54-55 | `import pkg[.sub]` has the key `pkg` |
| FixImports.ModuleKeyOfImportList | fix_imports.py:54-55 | `import pkg, ...` has the key `pkg` |
| FixImports.GroupOf | fix_imports.py:57-66 | the fixed list of standard modules, then attendance_analyzer, lib and server as local, and everything else third-party |
| FixImports.GroupedFailsIff | fix_imports.py:51-55 | the classification raises exactly when some line has fewer than two words |
| FixImports.GroupedKeepsLines | fix_imports.py:51-66 | every line lands in one group, as often as it occurs |
| FixImports.AddKeepsLines | fix_imports.py:62-66 | appending a line to one group adds exactly it |
| FixImports.GroupedByKey | fix_imports.py:51-66 | every line lands in the group its module key selects |
| FixImports.GroupImports | fix_imports.py:47-66 | the classifying loop computes that grouping |
| FixImports.AssembleBlock | fix_imports.py:74-84 | the reconstruction loop gives the assembled block |
| FixImports.NonEmptyAppend | fix_imports.py:74-84 | dropping separators distributes over concatenation |
| FixImports.NonEmptyKeeps | fix_imports.py:74-84 | lines of code are all kept |
| FixImports.AssembleLines | fix_imports.py:74-84 | without separators the block is the standard, third-party and local groups in that order |
| FixImports.JoinBlankSeparated | fix_imports.py:77-84 | joining two non-empty groups with one empty line keeps every separator between two lines of code |
| FixImports.CodeSeparated | fix_imports.py:74-76 | a group alone holds no separator |
| FixImports.AssembleSeparators | fix_imports.py:74-84 | every empty line of the block stands between two lines of code, never at an end or twice in a row |
| FixImports.RebuildContents | fix_imports.py:45-84 | the block holds exactly the collected lines, each group sorted and holding only lines of its kind |
| FixImports.Rebuild | fix_imports.py:45-87 | the rewrite fails exactly when some collected line has no module key |
| FixImports.RebuildBlock | fix_imports.py:45-84 | the sorting and reassembly computes the rebuilt block |
| FixImports.FixImportsInFile | fix_imports.py:8-99 | the scan returns what the whole-file function says: the rewritten lines, no imports, or the classification error |
| FixImports.FixResult | fix_imports.py:8-99 | the file is rewritten, or raises, only when it has an import line |
| FixImports.SpliceKeeps | fix_imports.py:87 | the slice assignment keeps the lines before and after and ends the block with one empty line |
| FixImports.RewriteKeepsTheRest | fix_imports.py:33-95 | a rewrite replaces exactly the first import block, which spans only import and blank lines, keeping everything before and after it, with one empty line after the new block |
| FixImports.NoImportLineNoChange | fix_imports.py:16-99 | without an import line the scan finds nothing |
| FixImports.NoImportsUnchanged | fix_imports.py:16-99 | a file without an import line is left alone |
| FixImports.ShebangSkipped | fix_imports.py:19-21 | a shebang line is skipped and an import right after it starts the block |
| FixImports.DocstringSkipped | fix_imports.py:22-30 | an opening docstring is skipped up to and including its closing line |
| FixImports.CloseIndexFirst | fix_imports.py:27-28 | the closing line is the first one containing the quote |

## Left out

- Holidays: the analyzer's holiday calendar (the fixed table and the Taiwan government API lookup) is a given set of day numbers; fetching and caching it is network I/O.
- Persistence: the state manager's JSON load and save, the `FHR_STATE_FILE` environment variable and the atomic temp-file writes of the state and the recent-file list are left out; the classes hold the decoded contents.
- Excel export (`openpyxl`), the analyzer's `generate_report` and `export_*` wrappers around the modelled line builders, and the CSV module's quoting, BOM and `;` delimiter are output formatting by foreign libraries.
- Threading: the service runs in a worker thread with a cancel event; the event is a parameter telling whether the k-th check sees it set.
- The FastAPI endpoints of server/main.py, `_save_upload`, `_issues_to_dtos`, `_list_backups_info`, the sha256 snapshot token and the `resolve()` check after the download name check are web glue or hashing; the pure helpers they call are modelled.
- The terminal UI widgets and the command-line entry points, the i18n message catalogues and logging are presentation.
- `datetime.strptime` and `strftime` of dates are parameters or day numbers; time zones and floating-point seconds do not arise in the modelled code.
- Server mtimes are whole numbers, not Python floats.
- ExportCleanup: the `abspath` double-check of a backup's directory is not modelled, because for the plain file names the listing yields it always holds.
- Recent: the stored "recent" value is always a list of items (a string, an object or anything else); a top-level value that is not a list, and a `last_used` that is not a string, are not modelled.
- PoToMo: the struct packing of the MO words into little-endian 32-bit integers (and any overflow past 2^32), and `compile_all`'s `os.walk`, are left out; the image is a sequence of whole-number words and bytes.
- PoToMo.UnquoteAsWritten: models `unicode_escape` decoding only for strings without a backslash, where it is the Latin-1 reading of the UTF-8 bytes; escape sequences are not decoded.
- FixImports: `main()`, the file write and universal-newline reading are I/O; the `if import_lines` test that can never be false at that point is not modelled as a branch.
- Policy: `earliest_checkin` and `lunch_end` are read from the configuration but never used by the rules, so they are not modelled.
- Policy.ParseClock: models `strptime` of the clock part only (leading whitespace absorbed by the format's space, one- or two-digit fields); the date part written by `strftime` is not parsed again.
- Policy.LateMinutesWith: takes the lunch start already parsed, where the source parses it on each call; the two agree because parsing is total.
- Service: `report_text`, the `_status` field, adding the source to the recent-file list and the progress callback's message text are not modelled; the result carries the issues, totals and exported paths.
- Service.Run: models the run as evidently intended; as written it raises TypeError at lib/service/analyzer.py:145 (see Findings). The analyzer and state manager it drives are taken through their modelled results (the issues are a parameter), and the user is taken as parsed, so an error raised while parsing the file name is not modelled here.
- Service.RunStages: models the stages of the corrected run; as written they are never reached, and the `debug=` keyword at line 159 and the `incremental=` keyword at line 172 are not accepted by the analyzer either (at line 172 the resulting TypeError would be rewrapped as AnalysisError).
- Parser.LeadingDigits: `\d` is the ASCII digits 0-9 here; Python's `\d` on text also matches other Unicode decimal digits (such as the full-width "２"), so a line-number marker written with them is not removed in the model.
- Analyzer.ParseAttendanceLine: the same `\d` restriction for the marker at attendance_analyzer.py:224.
- Filename.MatchStem: the six-digit segments are ASCII digits only; Python's `\d{6}` and `int()` also accept other Unicode decimal digits, so "２０２５０１-王小明-出勤資料.txt", which the source reads as January 2025, does not match in the model.
- ExportCleanup.MatchIsBackupName: "only such names" is stated for ASCII digits; the source's `\d{8}_\d{6}` also accepts other Unicode decimal digits, which the model does not read as a timestamp.
- ExportCleanup.IsTimestamp: the digits of the `\d{8}_\d{6}` stamp are ASCII digits 0-9 only, for the same reason.
- PoToMo.ParsePo: the line loop applies the corrected quote stripping (PoToMo.Unquote), not `_unquote` as written: non-ASCII text is kept rather than garbled (see Findings), and escape sequences such as `\"` stay as written rather than being decoded.

## Findings

| source | as written | input that shows it | evidently intended | confidence | as-written member | corrected member |
|---|---|---|---|---|---|---|
| lib/filename.py:32-41 | the end segment's month is not checked before `month + 1` is computed, so month "00" is accepted | "202501-202500-王小明-出勤資料.txt" gives a range ending on 2024-12-31, before its own start | a month outside 1-12 is rejected like any other bad date | not executed | Filename.EndMonthZeroAccepted | Filename.BadMonthRejected |
| lib/filename.py:32-41 | `datetime(1, 1, 1) - timedelta(days=1)` raises `OverflowError`, which the `except ValueError` does not catch | "000112-000012-王小明-出勤資料.txt" | (None, None, None), as for every other unusable name | not executed | Filename.YearZeroDecemberRaises | Filename.ParseRangeAndUser |
| tools/po_to_mo.py:50-53 | `encode('utf-8').decode('unicode_escape')` reads the UTF-8 bytes back as Latin-1 | the quoted string "\"中\"" becomes the three characters U+00E4, U+00B8, U+00AD | the text between the quotes, its characters unchanged | not executed | PoToMo.AsWrittenGarblesChinese | PoToMo.Unquote |
| lib/service/analyzer.py:145 | the state manager is built with `read_only=`, which `AttendanceStateManager.__init__` (lib/state.py:13) does not take; the TypeError is raised before the `try` | a full Excel run of an existing "202501-王小明-出勤資料.txt" | the run goes on to the reset, the mode decision, the stages and the export | not executed | Service.RunAsWritten | Service.Run |
| lib/policy.py:20-25 | a day counts as absent only when both records exist, as the docstring also says | a day with no check-in record and a check-out at 17:00, which test/test_policy.py:47-58 expects to be absent | absent when either record is missing or has no actual time, as the analyzer's own check (attendance_analyzer.py:438-450) decides | not executed; the tests and the analyzer agree against the code and its docstring | Analyzer.PolicyAbsenceMissesTests | Analyzer.IsFullDayAbsent |
