/** The CSV export: a header row, an optional status row and one row per
    issue, handed to a row writer in that order. Cells are text or
    integers; the `;` delimiter, quoting and the UTF-8 byte-order mark are
    the CSV library's business and are not modelled. */
module CsvExport {
  import opened Common
  import opened Records

  datatype Cell = Text(text: string) | Number(value: int)

  /** The status shown when an incremental run found no new issue. */
  datatype StatusInfo = StatusInfo(lastDate: string, completeDays: int, lastAnalysisTime: string)

  /** A `csv.writer`: the rows written so far, in order. */
  class RowWriter {
    var rows: seq<seq<Cell>>

    constructor()
      ensures rows == []
    {
      rows := [];
    }

    /** `writer.writerow(row)`. */
    method WriteRow(row: seq<Cell>)
      modifies this
      ensures rows == old(rows) + [row]
    {
      rows := rows + [row];
    }
  }

  const BaseHeaders: seq<Cell> := [Text("日期"), Text("類型"), Text("時長(分鐘)"), Text("說明"), Text("時段"), Text("計算式")]
  const StatusHeader: Cell := Text("狀態")

  /** The header row: six columns, and the status column in incremental
      mode. */
  function Headers(incremental: bool): (r: seq<Cell>)
    ensures |r| == if incremental then 7 else 6
    ensures r[..6] == BaseHeaders
    ensures incremental ==> r[6] == StatusHeader
  {
    if incremental then BaseHeaders + [StatusHeader] else BaseHeaders
  }

  /** `write_headers`. */
  method WriteHeaders(w: RowWriter, incremental: bool)
    modifies w
    ensures w.rows == old(w.rows) + [Headers(incremental)]
  {
    var headers := BaseHeaders;
    if incremental {
      headers := headers + [StatusHeader];
    }
    w.WriteRow(headers);
  }

  /** The message cell of the status row. */
  function StatusMessage(s: StatusInfo): string {
    "📊 增量分析完成，已處理至 " + s.lastDate + "，共 " + IntToString(s.completeDays) +
      " 個完整工作日 | 上次分析時間: " + s.lastAnalysisTime
  }

  /** The message names the last processed date and ends with the time
      of the previous analysis. */
  lemma StatusMessageNames(s: StatusInfo)
    ensures Contains(StatusMessage(s), s.lastDate)
    ensures EndsWith(StatusMessage(s), " | 上次分析時間: " + s.lastAnalysisTime)
  {
    var m := StatusMessage(s);
    var head := "📊 增量分析完成，已處理至 ";
    assert m[|head|..|head| + |s.lastDate|] == s.lastDate;
    ContainsAt(m, s.lastDate, |head|);
    var tail := " | 上次分析時間: " + s.lastAnalysisTime;
    assert m[|m| - |tail|..] == tail;
  }

  /** The status row: seven cells, the last processed date first, a zero
      duration, the message and the fixed note. */
  function StatusRow(s: StatusInfo): (r: seq<Cell>)
    ensures |r| == 7 && r[0] == Text(s.lastDate) && r[3] == Text(StatusMessage(s))
  {
    [Text(s.lastDate), Text("狀態資訊"), Number(0), Text(StatusMessage(s)), Text(""),
     Text("上次處理範圍內無新問題需要申請"), Text("系統狀態")]
  }

  /** `write_status_row`. */
  method WriteStatusRow(w: RowWriter, s: StatusInfo)
    modifies w
    ensures w.rows == old(w.rows) + [StatusRow(s)]
  {
    w.WriteRow(StatusRow(s));
  }

  /** One issue's row: date, type, duration, description, time range and
      calculation, and in incremental mode whether the issue is new. */
  function IssueRow(issue: Issue, incremental: bool): (r: seq<Cell>)
    ensures |r| == if incremental then 7 else 6
    ensures r[..6] == IssueCells(issue)
    ensures incremental ==> r[6] == Text(StatusLabel(issue.isNew))
  {
    if incremental then IssueCells(issue) + [Text(StatusLabel(issue.isNew))] else IssueCells(issue)
  }

  /** The six cells every issue row starts with. */
  function IssueCells(issue: Issue): (r: seq<Cell>)
    ensures |r| == 6
  {
    [Text(SlashDate(issue.date)), Text(issue.kind.Value()), Number(issue.durationMinutes),
     Text(issue.description), Text(issue.timeRange), Text(issue.calculation)]
  }

  /** The rows of a list of issues, in order. */
  function IssueRows(issues: seq<Issue>, incremental: bool): (r: seq<seq<Cell>>)
    ensures |r| == |issues|
    ensures forall k :: 0 <= k < |issues| ==> r[k] == IssueRow(issues[k], incremental)
  {
    seq(|issues|, k requires 0 <= k < |issues| => IssueRow(issues[k], incremental))
  }

  lemma IssueRowsStep(issues: seq<Issue>, i: nat, incremental: bool)
    requires i < |issues|
    ensures IssueRows(issues[..i + 1], incremental) == IssueRows(issues[..i], incremental) + [IssueRow(issues[i], incremental)]
  {
  }

  /** `write_issue_rows`. */
  method WriteIssueRows(w: RowWriter, issues: seq<Issue>, incremental: bool)
    modifies w
    ensures w.rows == old(w.rows) + IssueRows(issues, incremental)
  {
    for i := 0 to |issues|
      invariant w.rows == old(w.rows) + IssueRows(issues[..i], incremental)
    {
      var row := IssueCells(issues[i]);
      if incremental {
        row := row + [Text(StatusLabel(issues[i].isNew))];
      }
      IssueRowsStep(issues, i, incremental);
      w.WriteRow(row);
    }
    assert issues[..|issues|] == issues;
  }

  /** The status row is written only for an incremental run with status
      information and no issue. */
  predicate WritesStatus(issues: seq<Issue>, incremental: bool, status: Option<StatusInfo>) {
    status.Some? && incremental && |issues| == 0
  }

  /** The status row, when it is written. */
  function StatusRows(issues: seq<Issue>, incremental: bool, status: Option<StatusInfo>): (r: seq<seq<Cell>>)
    ensures |r| == if WritesStatus(issues, incremental, status) then 1 else 0
  {
    if WritesStatus(issues, incremental, status) then [StatusRow(status.value)] else []
  }

  /** Every row `save_csv` writes, in order. */
  function CsvRows(issues: seq<Issue>, incremental: bool, status: Option<StatusInfo>): seq<seq<Cell>> {
    [Headers(incremental)] + StatusRows(issues, incremental, status) + IssueRows(issues, incremental)
  }

  /** `save_csv`: a fresh file receives the header, the status row when it
      applies, then the issue rows. */
  method SaveCsv(issues: seq<Issue>, incremental: bool, status: Option<StatusInfo>) returns (rows: seq<seq<Cell>>)
    ensures rows == CsvRows(issues, incremental, status)
  {
    var w := new RowWriter();
    WriteHeaders(w, incremental);
    if status.Some? && incremental && |issues| == 0 {
      WriteStatusRow(w, status.value);
    }
    assert w.rows == [Headers(incremental)] + StatusRows(issues, incremental, status);
    WriteIssueRows(w, issues, incremental);
    rows := w.rows;
  }

  /** The file's layout: the header first, the status row second exactly
      when it applies, and the issue rows last, one per issue in order. */
  lemma CsvLayout(issues: seq<Issue>, incremental: bool, status: Option<StatusInfo>)
    ensures var rows := CsvRows(issues, incremental, status);
      var s := |StatusRows(issues, incremental, status)|;
      |rows| == 1 + s + |issues| && rows[0] == Headers(incremental) &&
      (WritesStatus(issues, incremental, status) ==> rows[1] == StatusRow(status.value)) &&
      forall k :: 0 <= k < |issues| ==> rows[1 + s + k] == IssueRow(issues[k], incremental)
  {
  }

  /** Every row of the file is as wide as its header row, so the status
      column lines up with the header's. */
  lemma RowsMatchHeader(issues: seq<Issue>, incremental: bool, status: Option<StatusInfo>)
    ensures var rows := CsvRows(issues, incremental, status);
      forall r :: 0 <= r < |rows| ==> |rows[r]| == |Headers(incremental)|
  {
    var rows := CsvRows(issues, incremental, status);
    var s := |StatusRows(issues, incremental, status)|;
    forall r | 0 <= r < |rows| ensures |rows[r]| == |Headers(incremental)| {
      if r >= 1 + s {
        assert rows[r] == IssueRow(issues[r - 1 - s], incremental);
      }
    }
  }
}
