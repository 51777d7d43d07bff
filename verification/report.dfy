/** The text report's line builders: the incremental-analysis block, one
    section of issues and the summary block. Each builder returns a list of
    lines; joining them is left to the caller. */
module Report {
  import opened Common
  import opened Records

  /** `sep.join(parts)`. */
  function JoinWith(parts: seq<string>, sep: string): string {
    if |parts| == 0 then ""
    else if |parts| == 1 then parts[0]
    else parts[0] + sep + JoinWith(parts[1..], sep)
  }

  /** Every character of a join comes from a part or from the separator. */
  lemma {:induction false} JoinWithChars(parts: seq<string>, sep: string, c: char)
    requires c !in sep && forall k :: 0 <= k < |parts| ==> c !in parts[k]
    ensures c !in JoinWith(parts, sep)
  {
    if |parts| > 1 {
      JoinWithChars(parts[1..], sep, c);
    }
  }

  /** Every part shows up in the join. */
  lemma {:induction false} JoinWithHasParts(parts: seq<string>, sep: string, k: nat)
    requires k < |parts|
    ensures Contains(JoinWith(parts, sep), parts[k])
  {
    var j := JoinWith(parts, sep);
    if |parts| == 1 || k == 0 {
      assert j[0..|parts[0]|] == parts[0];
      ContainsAt(j, parts[0], 0);
    } else {
      JoinWithHasParts(parts[1..], sep, k - 1);
      var rest := JoinWith(parts[1..], sep);
      var i := ContainsWitness(rest, parts[k]);
      var off := |parts[0]| + |sep|;
      assert j == parts[0] + sep + rest;
      assert j[off + i..off + i + |parts[k]|] == rest[i..i + |parts[k]|];
      ContainsAt(j, parts[k], off + i);
    }
  }

  const IncrementalHeader: string := "## 📈 增量分析資訊：\n"
  const MoreMarker: char := '等'

  /** The date preview: the first five dates joined by ", ", followed by
      " 等 N 天" when there are more than five. */
  function Preview(dates: seq<string>): (r: string)
    ensures |dates| <= 5 ==> r == JoinWith(dates, ", ")
  {
    var shown := JoinWith(PyPrefix(dates, 5), ", ");
    if |dates| > 5 then shown + MoreTail(|dates|) else shown
  }

  /** The preview names every one of the first five dates. */
  lemma PreviewNamesFirstFive(dates: seq<string>, k: nat)
    requires k < |dates| && k < 5
    ensures Contains(Preview(dates), dates[k])
  {
    var shown := PyPrefix(dates, 5);
    assert shown[k] == dates[k];
    JoinWithHasParts(shown, ", ", k);
    var j := JoinWith(shown, ", ");
    var i := ContainsWitness(j, dates[k]);
    assert Preview(dates)[..|j|] == j;
    assert Preview(dates)[i..i + |dates[k]|] == j[i..i + |dates[k]|];
    ContainsAt(Preview(dates), dates[k], i);
  }

  /** The " 等 N 天" tail that follows more than five dates. */
  function MoreTail(n: nat): string {
    " " + [MoreMarker] + " " + IntToString(n) + " 天"
  }

  /** The preview carries the " 等 N 天" tail exactly when there are more
      than five dates (dates without the character 等, as `YYYY/MM/DD`
      dates are). */
  lemma PreviewTail(dates: seq<string>)
    requires forall k :: 0 <= k < |dates| ==> MoreMarker !in dates[k]
    ensures |dates| > 5 ==> EndsWith(Preview(dates), MoreTail(|dates|))
    ensures MoreMarker in Preview(dates) <==> |dates| > 5
  {
    var shown := PyPrefix(dates, 5);
    JoinWithChars(shown, ", ", MoreMarker);
    if |dates| > 5 {
      var p := Preview(dates);
      var tail := MoreTail(|dates|);
      assert p == JoinWith(shown, ", ") + tail;
      assert p[|p| - |tail|..] == tail;
      assert tail[1] == MoreMarker;
    }
  }

  /** The preview as `build_incremental_lines` assembles it. */
  method BuildPreview(dates: seq<string>) returns (preview: string)
    ensures preview == Preview(dates)
  {
    preview := JoinWith(PyPrefix(dates, 5), ", ");
    if |dates| > 5 {
      preview := preview + " " + [MoreMarker] + " " + IntToString(|dates|) + " 天";
    }
  }

  /** `build_incremental_lines`: a header, the user, the complete-day
      count, the newly processed count, the skipped count
      (complete − new), a date line only when there are dates, and a
      closing blank line. */
  method BuildIncrementalLines(user: string, totalComplete: int, unprocessedCount: int, dates: seq<string>)
    returns (lines: seq<string>)
    ensures |lines| == if |dates| > 0 then 7 else 6
    ensures lines[0] == IncrementalHeader && lines[1] == "- 👤 使用者：" + user
    ensures lines[2] == "- 📊 總完整工作日：" + IntToString(totalComplete) + " 天"
    ensures lines[3] == "- 🔄 新處理工作日：" + IntToString(unprocessedCount) + " 天"
    ensures lines[4] == "- \U{23ED}\U{FE0F}  跳過已處理：" + IntToString(totalComplete - unprocessedCount) + " 天"
    ensures |dates| > 0 ==> lines[5] == "- 📅 新處理日期：" + Preview(dates)
    ensures lines[|lines| - 1] == ""
  {
    lines := [];
    lines := lines + [IncrementalHeader];
    lines := lines + ["- 👤 使用者：" + user];
    lines := lines + ["- 📊 總完整工作日：" + IntToString(totalComplete) + " 天"];
    lines := lines + ["- 🔄 新處理工作日：" + IntToString(unprocessedCount) + " 天"];
    lines := lines + ["- \U{23ED}\U{FE0F}  跳過已處理：" + IntToString(totalComplete - unprocessedCount) + " 天"];
    if |dates| > 0 {
      var preview := BuildPreview(dates);
      lines := lines + ["- 📅 新處理日期：" + preview];
    }
    lines := lines + [""];
  }

  const TimeRangePrefix: string := "   ⏰ 時段: "
  const CalcPrefix: string := "   🧮 計算: "

  /** The numbered first line of an issue. */
  function NumberedLine(n: nat, icon: string, issue: Issue): string {
    NatToString(n) + AfterNumber(icon, issue)
  }

  /** What follows the number: the bold `YYYY/MM/DD` date, the icon and
      the description. */
  function AfterNumber(icon: string, issue: Issue): string {
    ". **" + SlashDate(issue.date) + "** - " + icon + " " + issue.description
  }

  /** The numbered first lines of a list of issues, numbered from 1. */
  function NumberedLines(issues: seq<Issue>, icon: string): (r: seq<string>)
    ensures |r| == |issues|
  {
    seq(|issues|, k requires 0 <= k < |issues| => NumberedLine(k + 1, icon, issues[k]))
  }

  lemma NumberedLinesAt(issues: seq<Issue>, icon: string, k: nat)
    requires k < |issues|
    ensures NumberedLines(issues, icon)[k] == NumberedLine(k + 1, icon, issues[k])
  {
  }

  /** A head line as numbered lines are: it starts with a digit. */
  predicate NumberedHeads(heads: seq<string>) {
    forall k :: 0 <= k < |heads| ==> |heads[k]| > 0 && IsDigit(heads[k][0])
  }

  /** A numbered line starts with the number's first digit. */
  lemma NumberedLineStartsWithDigit(n: nat, icon: string, issue: Issue)
    ensures |NumberedLine(n, icon, issue)| > 0 && IsDigit(NumberedLine(n, icon, issue)[0])
  {
    var digits := NatToString(n);
    assert NumberedLine(n, icon, issue)[0] == digits[0];
  }

  lemma NumberedLinesAreNumbered(issues: seq<Issue>, icon: string)
    ensures NumberedHeads(NumberedLines(issues, icon))
  {
    var heads := NumberedLines(issues, icon);
    forall k | 0 <= k < |heads| ensures |heads[k]| > 0 && IsDigit(heads[k][0]) {
      NumberedLinesAt(issues, icon, k);
      NumberedLineStartsWithDigit(k + 1, icon, issues[k]);
    }
  }

  /** The lines of one issue under its first line `head`: a time-range
      line when the range is non-empty, a calculation line when asked for
      and non-empty, and a blank line. */
  function IssueBlock(head: string, issue: Issue, showCalc: bool): seq<string> {
    [head]
      + (if issue.timeRange != "" then [TimeRangePrefix + issue.timeRange] else [])
      + (if showCalc && issue.calculation != "" then [CalcPrefix + issue.calculation] else [])
      + [""]
  }

  /** The blocks of a list of issues, the k-th under `heads[k]`. */
  function Blocks(issues: seq<Issue>, heads: seq<string>, showCalc: bool): seq<string>
    requires |heads| == |issues|
    decreases |issues|
  {
    if |issues| == 0 then []
    else
      Blocks(issues[..|issues| - 1], heads[..|issues| - 1], showCalc) +
      IssueBlock(heads[|issues| - 1], issues[|issues| - 1], showCalc)
  }

  /** The section body of `build_issue_section`: the issues' blocks,
      numbered from 1. */
  function SectionBody(issues: seq<Issue>, icon: string, showCalc: bool): seq<string> {
    Blocks(issues, NumberedLines(issues, icon), showCalc)
  }

  lemma BlocksStep(issues: seq<Issue>, heads: seq<string>, i: nat, showCalc: bool)
    requires |heads| == |issues| && i < |issues|
    ensures Blocks(issues[..i + 1], heads[..i + 1], showCalc) ==
      Blocks(issues[..i], heads[..i], showCalc) + IssueBlock(heads[i], issues[i], showCalc)
  {
    assert issues[..i + 1][..i] == issues[..i];
    assert heads[..i + 1][..i] == heads[..i];
  }

  lemma AppendAssoc<T>(a: seq<T>, b: seq<T>, c: seq<T>)
    ensures a + b + c == a + (b + c)
  {
  }

  /** `build_issue_section`: nothing for no issues, otherwise the title and
      the issues' blocks numbered from 1. */
  method BuildIssueSection(title: string, icon: string, issues: seq<Issue>, showCalc: bool)
    returns (lines: seq<string>)
    ensures |issues| == 0 ==> lines == []
    ensures |issues| > 0 ==> lines == [title + "\n"] + SectionBody(issues, icon, showCalc)
  {
    lines := [];
    if |issues| == 0 {
      return;
    }
    lines := lines + [title + "\n"];
    var heads := NumberedLines(issues, icon);
    for i := 0 to |issues|
      invariant lines == [title + "\n"] + Blocks(issues[..i], heads[..i], showCalc)
    {
      BlocksStep(issues, heads, i, showCalc);
      NumberedLinesAt(issues, icon, i);
      var block := IssueBlock(NumberedLine(i + 1, icon, issues[i]), issues[i], showCalc);
      assert block == IssueBlock(heads[i], issues[i], showCalc);
      AppendAssoc([title + "\n"], Blocks(issues[..i], heads[..i], showCalc), block);
      lines := lines + block;
    }
    assert issues[..|issues|] == issues && heads[..|issues|] == heads;
  }

  /** Some line starts with `prefix`. */
  predicate HasLineWith(lines: seq<string>, prefix: string) {
    exists j :: 0 <= j < |lines| && StartsWith(lines[j], prefix)
  }

  lemma HasLineWithAppend(a: seq<string>, b: seq<string>, prefix: string)
    ensures HasLineWith(a + b, prefix) <==> HasLineWith(a, prefix) || HasLineWith(b, prefix)
  {
    if HasLineWith(a + b, prefix) {
      var j :| 0 <= j < |a + b| && StartsWith((a + b)[j], prefix);
      if j < |a| { assert StartsWith(a[j], prefix); } else { assert StartsWith(b[j - |a|], prefix); }
    }
    if HasLineWith(a, prefix) {
      var j :| 0 <= j < |a| && StartsWith(a[j], prefix);
      assert StartsWith((a + b)[j], prefix);
    }
    if HasLineWith(b, prefix) {
      var j :| 0 <= j < |b| && StartsWith(b[j], prefix);
      assert StartsWith((a + b)[|a| + j], prefix);
    }
  }

  lemma HasLineWithSingle(x: string, prefix: string)
    ensures HasLineWith([x], prefix) <==> StartsWith(x, prefix)
  {
    if StartsWith(x, prefix) { assert StartsWith([x][0], prefix); }
  }

  /** Within one block, the time-range line and the calculation line are
      there exactly when the source says. */
  lemma IssueBlockLines(head: string, issue: Issue, showCalc: bool)
    requires |head| > 0 && IsDigit(head[0])
    ensures HasLineWith(IssueBlock(head, issue, showCalc), TimeRangePrefix) <==> issue.timeRange != ""
    ensures HasLineWith(IssueBlock(head, issue, showCalc), CalcPrefix) <==> showCalc && issue.calculation != ""
  {
    assert !StartsWith(head, TimeRangePrefix) && !StartsWith(head, CalcPrefix) by {
      assert head[0] != ' ';
    }
    assert !StartsWith(TimeRangePrefix + issue.timeRange, CalcPrefix) by {
      assert (TimeRangePrefix + issue.timeRange)[3] != CalcPrefix[3];
    }
    assert !StartsWith(CalcPrefix + issue.calculation, TimeRangePrefix) by {
      assert (CalcPrefix + issue.calculation)[3] != TimeRangePrefix[3];
    }
    assert StartsWith(TimeRangePrefix + issue.timeRange, TimeRangePrefix);
    assert StartsWith(CalcPrefix + issue.calculation, CalcPrefix);
    var tr := if issue.timeRange != "" then [TimeRangePrefix + issue.timeRange] else [];
    var ca := if showCalc && issue.calculation != "" then [CalcPrefix + issue.calculation] else [];
    HasLineWithSingle(head, TimeRangePrefix);
    HasLineWithSingle(head, CalcPrefix);
    HasLineWithSingle("", TimeRangePrefix);
    HasLineWithSingle("", CalcPrefix);
    if issue.timeRange != "" {
      HasLineWithSingle(TimeRangePrefix + issue.timeRange, TimeRangePrefix);
      HasLineWithSingle(TimeRangePrefix + issue.timeRange, CalcPrefix);
    }
    if showCalc && issue.calculation != "" {
      HasLineWithSingle(CalcPrefix + issue.calculation, TimeRangePrefix);
      HasLineWithSingle(CalcPrefix + issue.calculation, CalcPrefix);
    }
    assert !HasLineWith([], TimeRangePrefix) && !HasLineWith([], CalcPrefix);
    HasLineWithAppend([head], tr, TimeRangePrefix);
    HasLineWithAppend([head] + tr, ca, TimeRangePrefix);
    HasLineWithAppend([head] + tr + ca, [""], TimeRangePrefix);
    HasLineWithAppend([head], tr, CalcPrefix);
    HasLineWithAppend([head] + tr, ca, CalcPrefix);
    HasLineWithAppend([head] + tr + ca, [""], CalcPrefix);
  }

  /** Some issue has a calculation / a time range. */
  predicate SomeCalculation(issues: seq<Issue>) {
    exists k :: 0 <= k < |issues| && issues[k].calculation != ""
  }

  predicate SomeTimeRange(issues: seq<Issue>) {
    exists k :: 0 <= k < |issues| && issues[k].timeRange != ""
  }

  lemma SomeInInit(issues: seq<Issue>)
    requires |issues| > 0
    ensures SomeCalculation(issues) <==>
      SomeCalculation(issues[..|issues| - 1]) || issues[|issues| - 1].calculation != ""
    ensures SomeTimeRange(issues) <==>
      SomeTimeRange(issues[..|issues| - 1]) || issues[|issues| - 1].timeRange != ""
  {
    var init := issues[..|issues| - 1];
    if SomeCalculation(issues) {
      var k :| 0 <= k < |issues| && issues[k].calculation != "";
      if k < |init| { assert init[k].calculation != ""; }
    }
    if SomeTimeRange(issues) {
      var k :| 0 <= k < |issues| && issues[k].timeRange != "";
      if k < |init| { assert init[k].timeRange != ""; }
    }
    if SomeCalculation(init) {
      var k :| 0 <= k < |init| && init[k].calculation != "";
      assert issues[k].calculation != "";
    }
    if SomeTimeRange(init) {
      var k :| 0 <= k < |init| && init[k].timeRange != "";
      assert issues[k].timeRange != "";
    }
  }

  /** Blocks under numbered heads show a calculation line exactly when
      calculations are asked for and some issue has one, and a time-range
      line exactly when some issue has a time range. */
  lemma {:induction false} BlocksLines(issues: seq<Issue>, heads: seq<string>, showCalc: bool)
    requires |heads| == |issues| && NumberedHeads(heads)
    ensures HasLineWith(Blocks(issues, heads, showCalc), CalcPrefix) <==> showCalc && SomeCalculation(issues)
    ensures HasLineWith(Blocks(issues, heads, showCalc), TimeRangePrefix) <==> SomeTimeRange(issues)
    decreases |issues|
  {
    if |issues| > 0 {
      var n := |issues| - 1;
      var b := IssueBlock(heads[n], issues[n], showCalc);
      var rest := Blocks(issues[..n], heads[..n], showCalc);
      assert NumberedHeads(heads[..n]) by {
        forall k | 0 <= k < n ensures |heads[..n][k]| > 0 && IsDigit(heads[..n][k][0]) {
          assert heads[..n][k] == heads[k];
        }
      }
      BlocksLines(issues[..n], heads[..n], showCalc);
      IssueBlockLines(heads[n], issues[n], showCalc);
      HasLineWithAppend(rest, b, CalcPrefix);
      HasLineWithAppend(rest, b, TimeRangePrefix);
      SomeInInit(issues);
    }
  }

  /** `build_issue_section`, as the test of the hidden calculation shows:
      the section body has a calculation line exactly when calculations
      are asked for and some issue has one, and a time-range line exactly
      when some issue has a time range. */
  lemma SectionLines(issues: seq<Issue>, icon: string, showCalc: bool)
    ensures HasLineWith(SectionBody(issues, icon, showCalc), CalcPrefix) <==> showCalc && SomeCalculation(issues)
    ensures HasLineWith(SectionBody(issues, icon, showCalc), TimeRangePrefix) <==> SomeTimeRange(issues)
  {
    NumberedLinesAreNumbered(issues, icon);
    BlocksLines(issues, NumberedLines(issues, icon), showCalc);
  }

  /** The k-th head is a line of the blocks. */
  lemma {:induction false} BlocksHaveHeads(issues: seq<Issue>, heads: seq<string>, showCalc: bool, k: nat)
    requires |heads| == |issues| && k < |issues|
    ensures heads[k] in Blocks(issues, heads, showCalc)
    decreases |issues|
  {
    var n := |issues| - 1;
    var b := IssueBlock(heads[n], issues[n], showCalc);
    assert Blocks(issues, heads, showCalc) == Blocks(issues[..n], heads[..n], showCalc) + b;
    if k < n {
      BlocksHaveHeads(issues[..n], heads[..n], showCalc, k);
      assert heads[..n][k] == heads[k];
    } else {
      assert b[0] == heads[k];
    }
  }

  /** Every issue's line, numbered k + 1 for the k-th issue, is in the
      section body. */
  lemma SectionNumbersIssues(issues: seq<Issue>, icon: string, showCalc: bool, k: nat)
    requires k < |issues|
    ensures NumberedLine(k + 1, icon, issues[k]) in SectionBody(issues, icon, showCalc)
  {
    NumberedLinesAt(issues, icon, k);
    BlocksHaveHeads(issues, NumberedLines(issues, icon), showCalc, k);
  }

  /** The summary's categories in their fixed order. */
  const SummaryOrder: seq<IssueType> := [ForgetPunch, Late, Overtime, WeekdayLeave, Wfh]

  /** The label in front of a category's count. */
  function SummaryLabel(kind: IssueType): string {
    match kind
    case ForgetPunch => "- 🔄 建議忘刷卡天數："
    case Late => "- 😰 需要請遲到天數："
    case Overtime => "- 💪 加班天數："
    case WeekdayLeave => "- 📝 需要請假天數："
    case Wfh => "- 🏠 建議WFH天數："
  }

  /** `build_summary`: a header and then one line per category, in the
      fixed order, each with its own count. */
  function BuildSummary(forget: int, late: int, overtime: int, weekdayLeave: int, wfh: int): (r: seq<string>)
    ensures |r| == 6 && r[0] == "## 📊 統計摘要：\n"
    ensures var counts := [forget, late, overtime, weekdayLeave, wfh];
      forall i :: 0 <= i < 5 ==> r[i + 1] == SummaryLabel(SummaryOrder[i]) + IntToString(counts[i]) + " 天"
  {
    ["## 📊 統計摘要：\n",
     "- 🔄 建議忘刷卡天數：" + IntToString(forget) + " 天",
     "- 😰 需要請遲到天數：" + IntToString(late) + " 天",
     "- 💪 加班天數：" + IntToString(overtime) + " 天",
     "- 📝 需要請假天數：" + IntToString(weekdayLeave) + " 天",
     "- 🏠 建議WFH天數：" + IntToString(wfh) + " 天"]
  }

  /** Every category appears in the summary exactly once. */
  lemma SummaryCoversEachKindOnce(kind: IssueType)
    ensures exists i :: 0 <= i < |SummaryOrder| && SummaryOrder[i] == kind
    ensures forall i, j :: 0 <= i < j < |SummaryOrder| ==> SummaryOrder[i] != SummaryOrder[j]
  {
    match kind
    case ForgetPunch => assert SummaryOrder[0] == kind;
    case Late => assert SummaryOrder[1] == kind;
    case Overtime => assert SummaryOrder[2] == kind;
    case WeekdayLeave => assert SummaryOrder[3] == kind;
    case Wfh => assert SummaryOrder[4] == kind;
  }
}
