/** The analysis service: option validation, the run's mode decisions and
    stage sequence with cancellation, state reset, export fallback, totals
    and the issue preview.

    Everything the run hands to other code (parsing the file, grouping,
    evaluating, writing reports, the recent-files list) is outside this
    model; what the run needs back from it is a parameter: whether the
    source file exists, the user parsed from its name, whether the exported
    files exist afterwards, the issues found and the analyzer's incremental
    flag. The cancel event is the value it has at each check. */
module Service {
  import opened Common
  import opened Records
  import opened State

  /** The analysis modes. */
  datatype Mode = Incremental | Full
  {
    function Name(): string {
      match this
      case Incremental => "incremental"
      case Full => "full"
    }
  }

  /** The output formats. */
  datatype Format = Excel | Csv
  {
    function Name(): string {
      match this
      case Excel => "excel"
      case Csv => "csv"
    }
  }

  /** `AnalysisOptions.normalized_mode`. */
  function NormalizedMode(mode: string): (r: Result<Mode>)
    ensures r.Success? <==> mode == "incremental" || mode == "full"
    ensures r.Success? ==> r.value.Name() == mode
  {
    if mode == "incremental" then Success(Incremental)
    else if mode == "full" then Success(Full)
    else Failure("Unsupported mode: " + mode)
  }

  /** `AnalysisOptions.normalized_format`. */
  function NormalizedFormat(format: string): (r: Result<Format>)
    ensures r.Success? <==> format == "excel" || format == "csv"
    ensures r.Success? ==> r.value.Name() == format
  {
    if format == "excel" then Success(Excel)
    else if format == "csv" then Success(Csv)
    else Failure("Unsupported format: " + format)
  }

  /** Every mode and format is accepted back under its own name. */
  lemma NormalizeNames(m: Mode, f: Format)
    ensures NormalizedMode(m.Name()) == Success(m)
    ensures NormalizedFormat(f.Name()) == Success(f)
  {
  }

  /** `OutputRequest`. */
  datatype OutputRequest = OutputRequest(path: string, format: Format, backup: bool)

  /** `ExportedFile`. */
  datatype ExportedFile = ExportedFile(
    requestedPath: string, actualPath: string, requestedFormat: Format, actualFormat: Format)

  /** `ExportedFile.fallback_applied`. */
  predicate FallbackApplied(f: ExportedFile) {
    f.requestedFormat == Excel && f.actualFormat == Csv
  }

  /** `_export` after the report has been written: `requestedExists` tells
      whether a file is at the requested path, `fallbackExists` whether one
      is at that path with ".xlsx" replaced by ".csv". */
  function Export(req: OutputRequest, requestedExists: bool, fallbackExists: bool): (r: Result<ExportedFile>)
    ensures r.Failure? <==> req.format == Excel && !requestedExists && !fallbackExists
    ensures r.Success? ==> r.value.requestedPath == req.path && r.value.requestedFormat == req.format
    ensures r.Success? ==> (FallbackApplied(r.value) <==> req.format == Excel && !requestedExists)
    ensures r.Success? && !FallbackApplied(r.value) ==>
      r.value.actualPath == req.path && r.value.actualFormat == req.format
    ensures r.Success? && FallbackApplied(r.value) ==> r.value.actualPath == ReplaceAll(req.path, ".xlsx", ".csv")
  {
    if req.format == Excel && !requestedExists then
      if fallbackExists then Success(ExportedFile(req.path, ReplaceAll(req.path, ".xlsx", ".csv"), Excel, Csv))
      else Failure("Excel export expected at " + req.path + ", but no file was created")
    else Success(ExportedFile(req.path, req.path, req.format, req.format))
  }

  // ---------------------------------------------------------------------
  // Totals.

  /** The number of issues of one type. */
  function CountKind(issues: seq<Issue>, kind: IssueType): (n: nat)
    ensures n <= |issues|
  {
    if |issues| == 0 then 0
    else CountKind(issues[..|issues| - 1], kind) + (if issues[|issues| - 1].kind == kind then 1 else 0)
  }

  /** The five type counts add up to the number of issues. */
  lemma {:induction false} KindCountsAddUp(issues: seq<Issue>)
    ensures CountKind(issues, ForgetPunch) + CountKind(issues, Late) + CountKind(issues, Overtime) +
      CountKind(issues, Wfh) + CountKind(issues, WeekdayLeave) == |issues|
  {
    if |issues| > 0 {
      KindCountsAddUp(issues[..|issues| - 1]);
    }
  }

  /** The totals dict, one count per category and the overall total. */
  datatype Totals = Totals(forgetPunch: nat, late: nat, overtime: nat, wfh: nat, weekdayLeave: nat, total: nat)

  /** `_totals`: the counter of issue types; TOTAL is the sum of the
      counts, which is the number of issues. */
  function ServiceTotals(issues: seq<Issue>): (t: Totals)
    ensures t.total == |issues|
    ensures t.forgetPunch + t.late + t.overtime + t.wfh + t.weekdayLeave == t.total
  {
    KindCountsAddUp(issues);
    var fp := CountKind(issues, ForgetPunch);
    var late := CountKind(issues, Late);
    var ot := CountKind(issues, Overtime);
    var wfh := CountKind(issues, Wfh);
    var leave := CountKind(issues, WeekdayLeave);
    Totals(fp, late, ot, wfh, leave, fp + late + ot + wfh + leave)
  }

  /** Appending an issue raises its own category and the total by one. */
  lemma TotalsOfAppend(issues: seq<Issue>, x: Issue)
    ensures var before := ServiceTotals(issues);
      var after := ServiceTotals(issues + [x]);
      after.total == before.total + 1 &&
      after.late == before.late + (if x.kind == Late then 1 else 0) &&
      after.forgetPunch == before.forgetPunch + (if x.kind == ForgetPunch then 1 else 0) &&
      after.overtime == before.overtime + (if x.kind == Overtime then 1 else 0)
  {
    assert (issues + [x])[..|issues|] == issues;
  }

  // ---------------------------------------------------------------------
  // Preview.

  /** `IssuePreview`. */
  datatype IssuePreview = IssuePreview(
    date: string, kind: string, durationMinutes: int, description: string,
    timeRange: string, calculation: string, status: Option<string>)

  /** The preview of one issue; a status only in incremental mode. */
  function PreviewOf(issue: Issue, incremental: bool): (p: IssuePreview)
    ensures p.status.Some? <==> incremental
  {
    IssuePreview(SlashDate(issue.date), issue.kind.Value(), issue.durationMinutes, issue.description,
      issue.timeRange, issue.calculation, if incremental then Some(StatusLabel(issue.isNew)) else None)
  }

  /** `preview` previews the first `max(limit, 0)` issues, in order. */
  predicate IsPreview(preview: seq<IssuePreview>, issues: seq<Issue>, limit: int, incremental: bool) {
    |preview| == (if limit <= 0 then 0 else if limit < |issues| then limit else |issues|) &&
    forall k :: 0 <= k < |preview| ==> preview[k] == PreviewOf(issues[k], incremental)
  }

  /** Appending the preview of the next issue extends a pointwise
      preview by one. */
  lemma PointwiseAppend(preview: seq<IssuePreview>, issues: seq<Issue>, p: IssuePreview, incremental: bool)
    requires |preview| + 1 == |issues| && p == PreviewOf(issues[|preview|], incremental)
    requires forall k :: 0 <= k < |preview| ==> preview[k] == PreviewOf(issues[k], incremental)
    ensures forall k :: 0 <= k < |issues| ==> (preview + [p])[k] == PreviewOf(issues[k], incremental)
  {
    forall k | 0 <= k < |issues| ensures (preview + [p])[k] == PreviewOf(issues[k], incremental) {
      if k < |preview| {
        assert (preview + [p])[k] == preview[k];
      }
    }
  }

  method Preview(issues: seq<Issue>, limit: int, incremental: bool) returns (preview: seq<IssuePreview>)
    ensures IsPreview(preview, issues, limit, incremental)
  {
    var shown := PyPrefix(issues, if limit < 0 then 0 else limit);
    assert |shown| <= |issues|;
    preview := [];
    for i := 0 to |shown|
      invariant |preview| == i
      invariant forall k :: 0 <= k < i ==> preview[k] == PreviewOf(issues[k], incremental)
    {
      var p := PreviewOf(issues[i], incremental);
      PointwiseAppend(preview, issues[..i + 1], p, incremental);
      preview := preview + [p];
    }
  }

  // ---------------------------------------------------------------------
  // Reset, progress and cancellation.

  /** `_reset_user_state`: the user's entry is deleted only when it exists
      and debug mode is off, and the answer says whether it was. */
  method ResetUserState(sm: AttendanceStateManager, user: string, debug: bool) returns (applied: bool)
    modifies sm
    ensures applied <==> user in old(sm.users) && !debug
    ensures sm.users == if applied then old(sm.users) - {user} else old(sm.users)
  {
    if user !in sm.users {
      return false;
    }
    if debug {
      return false;
    }
    sm.users := sm.users - {user};
    return true;
  }

  /** `_emit_progress`: the progress callback is told the stage (outside
      this model); a set cancel event raises `AnalysisCancelled`, whose
      message is returned here. */
  function EmitProgress(stage: string, cancelSet: bool): (raised: Option<string>)
    ensures raised.Some? <==> cancelSet
  {
    if cancelSet then Some("Analysis cancelled during " + stage) else None
  }

  /** `_check_cancel`. */
  function CheckCancel(cancelSet: bool): (raised: Option<string>)
    ensures raised.Some? <==> cancelSet
  {
    if cancelSet then Some("Analysis cancelled") else None
  }

  // ---------------------------------------------------------------------
  // `run`.

  /** The mode decision of a run. */
  datatype ModeDecision = ModeDecision(firstTimeUser: bool, incremental: bool, effective: Mode)

  /** A user is first-time when one was parsed from the file name and has
      no processed ranges; such a user is analysed incrementally and the run
      reports the full mode. */
  function Decide(requested: Mode, user: Option<string>, ranges: seq<ProcessedRange>): (r: ModeDecision)
    ensures r.firstTimeUser ==> r.incremental && r.effective == Full
    ensures !r.firstTimeUser ==> r.effective == requested
  {
    var firstTime := user.Some? && |user.value| > 0 && |ranges| == 0;
    ModeDecision(firstTime, requested == Incremental || firstTime,
      if requested == Full || firstTime then Full else Incremental)
  }

  /** A first-time user always gets the full treatment; anyone else gets
      the requested mode, incremental exactly when that was requested. */
  lemma DecisionCases(requested: Mode, user: Option<string>, ranges: seq<ProcessedRange>)
    ensures var d := Decide(requested, user, ranges);
      (d.firstTimeUser <==> user.Some? && user.value != "" && ranges == []) &&
      (d.firstTimeUser ==> d.incremental && d.effective == Full) &&
      (!d.firstTimeUser ==> d.effective == requested && (d.incremental <==> requested == Incremental))
  {
  }

  /** `AnalysisOptions`, with the formats and modes still unchecked text. */
  datatype AnalysisOptions = AnalysisOptions(
    sourcePath: string, requestedFormat: string, mode: string, resetState: bool, debug: bool,
    output: Option<OutputRequest>, extraOutputs: seq<OutputRequest>, addRecent: bool, previewLimit: int)

  /** The exceptions a run can raise. */
  datatype ErrorKind = AnalysisError | ResetStateError | AnalysisCancelled | TypeError

  /** `AnalysisResult`, less the report text and incremental status. */
  datatype AnalysisResult = AnalysisResult(
    requestedMode: Mode, effectiveMode: Mode, requestedFormat: Format, actualFormat: Format,
    user: Option<string>, resetApplied: bool, firstTimeUser: bool, incremental: bool,
    outputs: seq<ExportedFile>, totals: Totals, preview: seq<IssuePreview>, debugMode: bool)

  /** A run either raises or returns a result. */
  datatype RunOutcome = Raised(kind: ErrorKind, message: string) | Completed(result: AnalysisResult)

  /** The number of cancellation checks a run makes: progress and check
      after each of parse, group and analyze, progress before export, and
      one after completion. */
  const CancelChecks := 8

  /** The requests to export: the primary output, then the extra ones. */
  function ExportRequests(options: AnalysisOptions): seq<OutputRequest> {
    (if options.output.Some? then [options.output.value] else []) + options.extraOutputs
  }

  /** Every request can be exported: for an Excel request, the file or its
      csv fallback exists afterwards. */
  predicate AllExportable(requests: seq<OutputRequest>, exported: OutputRequest -> (bool, bool)) {
    forall k :: 0 <= k < |requests| ==> ExportOf(requests[k], exported).Success?
  }

  /** None of the first `n` cancellation checks finds the event set. */
  predicate NoCancelBefore(cancelAt: nat -> bool, n: nat) {
    forall k :: 0 <= k < n ==> !cancelAt(k)
  }

  lemma NoCancelExtend(cancelAt: nat -> bool, n: nat)
    requires NoCancelBefore(cancelAt, n) && !cancelAt(n)
    ensures NoCancelBefore(cancelAt, n + 1)
  {
  }

  /** The parse, group and analyze stages of a run: each is announced
      (check `2s`) and then checked for cancellation (check `2s + 1`); the
      first set check raises. */
  method RunStages(cancelAt: nat -> bool) returns (raised: Option<string>)
    ensures raised.None? <==> NoCancelBefore(cancelAt, 6)
  {
    var stages := ["parse", "group", "analyze"];
    for s := 0 to 3
      invariant NoCancelBefore(cancelAt, 2 * s)
    {
      raised := EmitProgress(stages[s], cancelAt(2 * s));
      if raised.Some? {
        return;
      }
      raised := CheckCancel(cancelAt(2 * s + 1));
      if raised.Some? {
        return;
      }
    }
    raised := None;
  }

  /** The result of exporting one request, given which files exist
      afterwards. */
  function ExportOf(req: OutputRequest, exported: OutputRequest -> (bool, bool)): Result<ExportedFile> {
    Export(req, exported(req).0, exported(req).1)
  }

  /** `outputs` holds, for every request in order, the file its export
      produced. */
  predicate ExportsAll(outputs: seq<ExportedFile>, requests: seq<OutputRequest>,
                       exported: OutputRequest -> (bool, bool)) {
    |outputs| == |requests| &&
    forall k :: 0 <= k < |requests| ==> ExportOf(requests[k], exported) == Success(outputs[k])
  }

  /** The export loop of a run: every request in order; the first failing
      one raises its error, otherwise one exported file per request. */
  method ExportAll(requests: seq<OutputRequest>, exported: OutputRequest -> (bool, bool))
    returns (r: Result<seq<ExportedFile>>)
    ensures r.Success? ==> ExportsAll(r.value, requests, exported)
    ensures r.Failure? ==>
      exists k :: 0 <= k < |requests| && ExportOf(requests[k], exported) == Failure(r.error)
    ensures AllExportable(requests, exported) ==> r.Success?
  {
    var outputs: seq<ExportedFile> := [];
    for i := 0 to |requests|
      invariant |outputs| == i
      invariant forall k :: 0 <= k < i ==> ExportOf(requests[k], exported) == Success(outputs[k])
    {
      var file := ExportOf(requests[i], exported);
      if file.Failure? {
        return Failure(file.error);
      }
      outputs := outputs + [file.value];
    }
    assert ExportsAll(outputs, requests, exported);
    return Success(outputs);
  }

  /** The message of a reset requested when no user was parsed from the
      file name. */
  const NoUserForReset: string := "無法從檔名識別使用者，無法執行狀態重設"

  /** The name of the export stage. */
  const ExportStage: string := "export"

  /** The message of a cancellation seen after the run completed. */
  const CancelledAfterCompletion: string := "Analysis cancelled after completion"

  /** The stages of a run and the export of every request: the first set
      cancellation check or failed export is the failure reported. */
  method StagesAndExport(options: AnalysisOptions, cancelAt: nat -> bool, exported: OutputRequest -> (bool, bool))
    returns (failure: Option<(ErrorKind, string)>, outputs: seq<ExportedFile>)
    ensures failure.None? ==> NoCancelBefore(cancelAt, 7)
    ensures failure.None? ==> ExportsAll(outputs, ExportRequests(options), exported)
    ensures !NoCancelBefore(cancelAt, 7) ==> failure.Some? && failure.value.0 == AnalysisCancelled
    ensures NoCancelBefore(cancelAt, 7) && AllExportable(ExportRequests(options), exported) ==> failure.None?
  {
    outputs := [];
    var raised := RunStages(cancelAt);
    if raised.Some? {
      return Some((AnalysisCancelled, raised.value)), [];
    }
    raised := EmitProgress(ExportStage, cancelAt(6));
    if raised.Some? {
      return Some((AnalysisCancelled, raised.value)), [];
    }
    var exportedAll := ExportAll(ExportRequests(options), exported);
    if exportedAll.Failure? {
      return Some((AnalysisError, exportedAll.error)), [];
    }
    return None, exportedAll.value;
  }

  /** The part of a run after validation and the optional reset: the
      stages, the export of every request, the totals, the preview and the
      final cancellation check. */
  method FinishRun(mode: Mode, format: Format, user: Option<string>, resetApplied: bool,
                   decision: ModeDecision, options: AnalysisOptions,
                   cancelAt: nat -> bool, exported: OutputRequest -> (bool, bool),
                   issues: seq<Issue>, incrementalMode: bool)
    returns (r: RunOutcome)
    ensures r.Completed? ==> NoCancelBefore(cancelAt, CancelChecks)
    ensures NoCancelBefore(cancelAt, CancelChecks) && AllExportable(ExportRequests(options), exported) ==>
      r.Completed?
    ensures r.Completed? ==>
      var res := r.result;
      res.requestedMode == mode && res.requestedFormat == format && res.user == user &&
      res.resetApplied == resetApplied && res.debugMode == options.debug &&
      res.firstTimeUser == decision.firstTimeUser && res.incremental == decision.incremental &&
      res.effectiveMode == decision.effective &&
      ExportsAll(res.outputs, ExportRequests(options), exported) &&
      res.actualFormat == (if |res.outputs| > 0 then res.outputs[0].actualFormat else format) &&
      res.totals == ServiceTotals(issues) &&
      IsPreview(res.preview, issues, options.previewLimit, incrementalMode)
  {
    var failure, outputs := StagesAndExport(options, cancelAt, exported);
    if failure.Some? {
      return Raised(failure.value.0, failure.value.1);
    }
    var actualFormat := if |outputs| > 0 then outputs[0].actualFormat else format;
    var totals := ServiceTotals(issues);
    var preview := Preview(issues, options.previewLimit, incrementalMode);

    var raised := CheckCancel(cancelAt(7));
    if raised.Some? {
      return Raised(AnalysisCancelled, CancelledAfterCompletion);
    }
    NoCancelExtend(cancelAt, 7);
    return Completed(AnalysisResult(mode, decision.effective, format, actualFormat,
      user, resetApplied, decision.firstTimeUser, decision.incremental, outputs, totals, preview, options.debug));
  }

  /** `AnalyzerService.run`. `cancelAt(k)` is whether the cancel event is
      set at the `k`-th check; `exported(req)` whether the requested file
      and its csv fallback exist after `req` was exported. */
  method Run(options: AnalysisOptions, sourceExists: bool, user: Option<string>, sm: AttendanceStateManager,
             cancelAt: nat -> bool, exported: OutputRequest -> (bool, bool),
             issues: seq<Issue>, incrementalMode: bool)
    returns (r: RunOutcome)
    modifies sm
    ensures (NormalizedMode(options.mode).Failure? || NormalizedFormat(options.requestedFormat).Failure? ||
             !sourceExists) ==>
      r.Raised? && r.kind == AnalysisError && sm.users == old(sm.users)
    ensures (NormalizedMode(options.mode).Success? && NormalizedFormat(options.requestedFormat).Success? &&
             sourceExists && options.resetState && !(user.Some? && |user.value| > 0)) ==>
      r == Raised(ResetStateError, NoUserForReset) && sm.users == old(sm.users)
    ensures r.Completed? ==> NoCancelBefore(cancelAt, CancelChecks)
    ensures (NormalizedMode(options.mode).Success? && NormalizedFormat(options.requestedFormat).Success? &&
             sourceExists && (options.resetState ==> user.Some? && |user.value| > 0) &&
             NoCancelBefore(cancelAt, CancelChecks) && AllExportable(ExportRequests(options), exported)) ==>
      r.Completed?
    ensures r.Completed? ==>
      var res := r.result;
      var d := Decide(res.requestedMode, user, sm.GetUserProcessedRanges(if user.Some? then user.value else ""));
      NormalizedMode(options.mode) == Success(res.requestedMode) &&
      NormalizedFormat(options.requestedFormat) == Success(res.requestedFormat) &&
      res.firstTimeUser == d.firstTimeUser && res.incremental == d.incremental &&
      res.effectiveMode == d.effective &&
      (res.resetApplied <==> options.resetState && user.Some? && user.value in old(sm.users) && !options.debug) &&
      ExportsAll(res.outputs, ExportRequests(options), exported) &&
      res.actualFormat == (if |res.outputs| > 0 then res.outputs[0].actualFormat else res.requestedFormat) &&
      res.totals == ServiceTotals(issues) &&
      IsPreview(res.preview, issues, options.previewLimit, incrementalMode)
  {
    var requestMode := NormalizedMode(options.mode);
    if requestMode.Failure? {
      return Raised(AnalysisError, requestMode.error);
    }
    var requestFormat := NormalizedFormat(options.requestedFormat);
    if requestFormat.Failure? {
      return Raised(AnalysisError, requestFormat.error);
    }
    if !sourceExists {
      return Raised(AnalysisError, "Source file not found: " + options.sourcePath);
    }
    var resetApplied := false;
    if options.resetState {
      if !(user.Some? && |user.value| > 0) {
        return Raised(ResetStateError, NoUserForReset);
      }
      resetApplied := ResetUserState(sm, user.value, options.debug);
    }
    var decision := Decide(requestMode.value, user, sm.GetUserProcessedRanges(if user.Some? then user.value else ""));

    r := FinishRun(requestMode.value, requestFormat.value, user, resetApplied, decision, options,
      cancelAt, exported, issues, incrementalMode);
  }

  /** The message of the `TypeError` Python raises for the keyword
      `read_only`, which `AttendanceStateManager.__init__` does not take. */
  const ReadOnlyKeyword: string := "AttendanceStateManager.__init__() got an unexpected keyword argument 'read_only'"

  /** `run` as written: the options are validated, then the state manager
      is built with a `read_only` keyword its constructor does not accept,
      which raises `TypeError` before the `try`. No run completes. */
  function RunAsWritten(options: AnalysisOptions, sourceExists: bool): (r: RunOutcome)
    ensures r.Raised?
    ensures r.kind == AnalysisError <==>
      NormalizedMode(options.mode).Failure? || NormalizedFormat(options.requestedFormat).Failure? || !sourceExists
    ensures r.kind != AnalysisError ==> r == Raised(TypeError, ReadOnlyKeyword)
  {
    var requestMode := NormalizedMode(options.mode);
    var requestFormat := NormalizedFormat(options.requestedFormat);
    if requestMode.Failure? then Raised(AnalysisError, requestMode.error)
    else if requestFormat.Failure? then Raised(AnalysisError, requestFormat.error)
    else if !sourceExists then Raised(AnalysisError, "Source file not found: " + options.sourcePath)
    else Raised(TypeError, ReadOnlyKeyword)
  }

  /** A full analysis of an existing file to Excel, with no reset. */
  const PlainOptions: AnalysisOptions :=
    AnalysisOptions("202501-王小明-出勤資料.txt", "excel", "full", false, false, None, [], true, 10)

  /** As written, the plain run raises `TypeError`, and so does a reset
      requested without a user, which `Run` reports as `ResetStateError`. */
  lemma AsWrittenRaisesTypeError()
    ensures RunAsWritten(PlainOptions, true) == Raised(TypeError, ReadOnlyKeyword)
    ensures RunAsWritten(PlainOptions.(resetState := true), true).kind == TypeError
  {
  }
}
