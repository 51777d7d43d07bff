/** The attendance analyzer (`attendance_analyzer.py`): parsing punch lines
    into records, grouping records into work days, and the per-day
    evaluation that turns each work day into issues while counting the
    forget-punch allowance used in each month. */
module Analyzer {
  import opened Common
  import opened Records
  import Policy
  import Parser

  // The policy constants of the analyzer class.
  const LatestCheckin: string := "10:30"
  const LatestCheckinMinute: int := 630
  const LunchStartMinute: int := 750
  const WorkHours: int := 8
  const LunchHours: int := 1
  const MinOvertimeMinutes: int := 60
  const OvertimeIncrementMinutes: int := 60
  const ForgetPunchAllowancePerMonth: int := 2
  const ForgetPunchMaxMinutes: int := 60

  // ---------------------------------------------------------------------
  // Parsing.

  /** `_parse_attendance_line`: strips the line-number marker, needs at
      least three tab-separated fields, pads them to nine, and keeps the
      record only when the scheduled time is present and readable and the
      type is "上班" or "下班". */
  function ParseAttendanceLine(line: string, parseDateTime: string -> Option<int>): (r: Option<AttendanceRecord>)
    ensures var raw := Split(Parser.CleanLine(line), '\t');
      var f := Parser.Fields(line);
      r.Some? <==>
        |raw| >= 3 && f[0] != "" && parseDateTime(f[0]).Some? &&
        (f[2] == Parser.CheckInLabel || f[2] == Parser.CheckOutLabel)
    ensures var f := Parser.Fields(line);
      r.Some? ==>
        r.value.scheduled == parseDateTime(f[0]) &&
        r.value.date == Some(parseDateTime(f[0]).value / 1440) &&
        r.value.actual == (if f[1] == "" then None else parseDateTime(f[1])) &&
        (r.value.kind == Some(CheckIn) <==> f[2] == Parser.CheckInLabel) &&
        r.value.kind.Some? &&
        r.value.cardNumber == f[3] && r.value.source == f[4] && r.value.status == f[5] &&
        r.value.processed == f[6] && r.value.operation == f[7] && r.value.note == f[8]
  {
    var fields := Split(Parser.CleanLine(line), '\t');
    if |fields| < 3 then None
    else
      var f := Parser.PadFields(fields, Parser.FieldCount);
      assert f == Parser.Fields(line);
      var scheduled := if f[0] == "" then None else parseDateTime(f[0]);
      var actual := if f[1] == "" then None else parseDateTime(f[1]);
      if scheduled.None? || !(f[2] == Parser.CheckInLabel || f[2] == Parser.CheckOutLabel) then None
      else
        Some(AttendanceRecord(
          Some(scheduled.value / 1440), scheduled, actual,
          Some(if f[2] == Parser.CheckInLabel then CheckIn else CheckOut),
          f[3], f[4], f[5], f[6], f[7], f[8]))
  }

  /** The analyzer's line parser accepts exactly the lines `parse_line`
      accepts, and builds its record from the same fields. */
  lemma ParseAttendanceLineAgreesWithParseLine(line: string, parseDateTime: string -> Option<int>)
    ensures var r := ParseAttendanceLine(line, parseDateTime);
      var p := Parser.ParseLine(line, parseDateTime);
      (r.Some? <==> p.Some?) &&
      (r.Some? ==>
        r.value.scheduled == Some(p.value.scheduled) && r.value.actual == p.value.actual &&
        r.value.kind == Some(if p.value.typeLabel == Parser.CheckInLabel then CheckIn else CheckOut) &&
        r.value.note == p.value.note)
  {
    if |Split(Parser.CleanLine(line), '\t')| < 3 {
      Parser.ShortLineRejected(line, parseDateTime);
    }
  }

  // ---------------------------------------------------------------------
  // The per-day rules, with the class constants.

  /** `_is_full_day_absent`: either record is missing or has no actual
      punch time. */
  predicate IsFullDayAbsent(wd: WorkDay)
    ensures wd.checkin.None? || wd.checkout.None? ==> IsFullDayAbsent(wd)
    ensures !IsFullDayAbsent(wd) ==>
      wd.checkin.Some? && wd.checkin.value.actual.Some? && wd.checkout.Some? && wd.checkout.value.actual.Some?
  {
    !HasActual(wd.checkin) || !HasActual(wd.checkout)
  }

  /** Whenever the policy module calls a day absent, so does the analyzer. */
  lemma PolicyAbsentImpliesAnalyzerAbsent(wd: WorkDay)
    ensures Policy.IsFullDayAbsent(wd) ==> IsFullDayAbsent(wd)
  {
  }

  /** The converse fails: a day with no check-in record at all is absent
      for the analyzer but not for the policy module. */
  lemma AbsenceDefinitionsDiffer(checkout: AttendanceRecord)
    ensures var wd := WorkDay(0, None, Some(checkout), false, false);
      IsFullDayAbsent(wd) && !Policy.IsFullDayAbsent(wd)
  {
  }
  /** The four days of test/test_policy.py:36-82: no actual time on either
      record, no check-in record, no check-out record (all absent), and
      both records with actual times (not absent). The analyzer's
      definition gives every expected answer. */
  lemma AbsenceAsTested(d: int, ci: AttendanceRecord, co: AttendanceRecord, friday: bool, holiday: bool)
    requires ci.actual.Some? && co.actual.Some?
    ensures IsFullDayAbsent(WorkDay(d, Some(ci.(actual := None)), Some(co.(actual := None)), friday, holiday))
    ensures IsFullDayAbsent(WorkDay(d, None, Some(co), friday, holiday))
    ensures IsFullDayAbsent(WorkDay(d, Some(ci), None, friday, holiday))
    ensures !IsFullDayAbsent(WorkDay(d, Some(ci), Some(co), friday, holiday))
  {
  }

  /** The policy module's definition, as written, answers the two days
      with a missing record the other way. */
  lemma PolicyAbsenceMissesTests(d: int, ci: AttendanceRecord, co: AttendanceRecord, friday: bool, holiday: bool)
    ensures !Policy.IsFullDayAbsent(WorkDay(d, None, Some(co), friday, holiday))
    ensures !Policy.IsFullDayAbsent(WorkDay(d, Some(ci), None, friday, holiday))
  {
  }


  /** `_calculate_late_minutes`, with the class constants. */
  function LateMinutes(wd: WorkDay): (r: Policy.Lateness)
    ensures r.minutes >= 0
    ensures r.minutes > 0 <==>
      (HasActual(wd.checkin) && wd.checkin.value.actual.value > Policy.At(wd.date, LatestCheckinMinute))
  {
    if !HasActual(wd.checkin) then Policy.OnTime
    else
      var actual := wd.checkin.value.actual.value;
      var latest := Policy.At(wd.date, LatestCheckinMinute);
      if actual > latest then
        var raw := actual - latest;
        Policy.LateReport(actual, LatestCheckin, raw, raw > 120 && actual > Policy.At(wd.date, LunchStartMinute))
      else Policy.OnTime
  }

  /** Rules whose cutoff is "10:30" and whose lunch starts at 12:30. */
  predicate AnalyzerClock(rules: Policy.Rules) {
    rules.latestCheckin == LatestCheckin &&
    Policy.ParseClock(rules.latestCheckin) == Some(LatestCheckinMinute) &&
    Policy.ParseClock(rules.lunchStart) == Some(LunchStartMinute)
  }

  /** The analyzer's lateness is the policy module's computation with a
      cutoff written "10:30" that reads as 10:30 and a lunch start that
      reads as 12:30 ... */
  lemma LateMinutesIsPolicyBody(wd: WorkDay)
    ensures Policy.LateMinutesWith(wd, LatestCheckin, Some(LatestCheckinMinute), Some(LunchStartMinute)) == Success(LateMinutes(wd))
  {
  }

  /** ... and so under any rules with the analyzer's cutoff and lunch
      start ... */
  lemma LateMinutesAgreesWithRules(wd: WorkDay, rules: Policy.Rules)
    requires AnalyzerClock(rules)
    ensures Policy.LateMinutes(wd, rules) == Success(LateMinutes(wd))
  {
    LateMinutesIsPolicyBody(wd);
  }

  /** ... and so under the default rules. */
  lemma LateMinutesAgreesWithPolicy(wd: WorkDay)
    ensures Policy.LateMinutes(wd, Policy.DefaultRules) == Success(LateMinutes(wd))
  {
    Policy.DefaultCutoff();
    Policy.DefaultLunchStart();
    LateMinutesAgreesWithRules(wd, Policy.DefaultRules);
  }

  /** `_calculate_overtime_minutes`, with the class constants. Unlike the
      policy module it reports (0, 0) when the overtime is below the
      minimum. */
  function OvertimeMinutes(wd: WorkDay): (r: Policy.OvertimeResult)
    ensures r.applicable == 0 || MinOvertimeMinutes <= r.applicable <= r.actual
  {
    if !(HasActual(wd.checkin) && HasActual(wd.checkout)) then Policy.NoOvertime
    else
      var checkin := wd.checkin.value.actual.value;
      var checkout := wd.checkout.value.actual.value;
      var expected := checkin + (WorkHours + LunchHours) * 60;
      if checkout > expected && checkout - expected >= MinOvertimeMinutes then
        var raw := checkout - expected;
        var applicable := Policy.RoundOvertime(raw, MinOvertimeMinutes, OvertimeIncrementMinutes);
        Policy.RoundOvertimeBounds(raw, MinOvertimeMinutes, OvertimeIncrementMinutes);
        Policy.OvertimeReport(expected, checkout, raw, applicable)
      else Policy.NoOvertime
  }

  /** The analyzer's overtime is the policy module's under the default
      rules, except that overtime below the minimum is reported as (0, 0)
      rather than (raw, 0); the applicable minutes always agree. */
  lemma OvertimeMinutesAgreesWithPolicy(wd: WorkDay)
    ensures var p := Policy.OvertimeMinutes(wd, Policy.DefaultRules);
      p.Success? && p.value.applicable == OvertimeMinutes(wd).applicable &&
      (p.value.actual < MinOvertimeMinutes ==> OvertimeMinutes(wd) == Policy.NoOvertime) &&
      (p.value.actual >= MinOvertimeMinutes ==> OvertimeMinutes(wd) == p.value)
  {
    if HasActual(wd.checkin) && HasActual(wd.checkout) {
      var checkin := wd.checkin.value.actual.value;
      var checkout := wd.checkout.value.actual.value;
      var expected := checkin + (WorkHours + LunchHours) * 60;
      assert Policy.ExpectedCheckout(checkin, Policy.DefaultRules) == expected;
      if checkout - expected >= MinOvertimeMinutes {
        OvertimeAgreesAboveMinimum(wd);
      }
    }
  }

  /** At or above the minimum both compute the same report. */
  lemma OvertimeAgreesAboveMinimum(wd: WorkDay)
    requires HasActual(wd.checkin) && HasActual(wd.checkout)
    requires wd.checkout.value.actual.value - wd.checkin.value.actual.value - 540 >= MinOvertimeMinutes
    ensures Policy.OvertimeMinutes(wd, Policy.DefaultRules) == Success(OvertimeMinutes(wd))
  {
    var checkin := wd.checkin.value.actual.value;
    var checkout := wd.checkout.value.actual.value;
    var expected := checkin + 540;
    assert Policy.ExpectedCheckout(checkin, Policy.DefaultRules) == expected;
    var raw := checkout - expected;
    var report := Policy.OvertimeReport(expected, checkout, raw, Policy.RoundOvertime(raw, 60, 60));
    assert Policy.OvertimeMinutes(wd, Policy.DefaultRules) == Success(report);
  }

  // ---------------------------------------------------------------------
  // The evaluation of work days.

  /** `forget_punch_usage.get(key, 0)`. */
  function UsageOf(usage: map<YearMonth, int>, key: YearMonth): int {
    if key in usage then usage[key] else 0
  }

  /** The issues found so far and the forget-punch usage per month. */
  datatype Evaluation = Evaluation(issues: seq<Issue>, usage: map<YearMonth, int>)

  function WfhIssue(date: int): Issue {
    Issue(date, Wfh, 9 * 60, "建議申請整天WFH假 🏠💻", "", "", false)
  }

  function LeaveIssue(date: int): Issue {
    Issue(date, WeekdayLeave, 8 * 60, "整天沒進公司，建議請假 📝🏠", "", "", false)
  }

  /** Why a late arrival cannot be covered by a forget-punch. */
  function LateReason(minutes: int): string {
    if minutes > ForgetPunchMaxMinutes then "超過1小時" else "本月忘刷卡額度已用完"
  }

  function LateIssue(date: int, late: Policy.Lateness): Issue {
    Issue(date, Late, late.minutes,
      "遲到" + IntToString(late.minutes) + "分鐘 ⏱️ (" + LateReason(late.minutes) + ")",
      late.timeRange, late.calculation, false)
  }

  /** A forget-punch issue; `usedAfter` is the month's usage including it. */
  function ForgetPunchIssue(date: int, late: Policy.Lateness, usedAfter: int): Issue {
    Issue(date, ForgetPunch, 0,
      "遲到" + IntToString(late.minutes) + "分鐘，建議使用忘刷卡 🔄✅",
      late.timeRange,
      late.calculation + " (使用忘刷卡，本月剩餘: " +
        IntToString(ForgetPunchAllowancePerMonth - usedAfter) + "次)",
      false)
  }

  function OvertimeIssue(date: int, ot: Policy.OvertimeResult): Issue {
    Issue(date, Overtime, ot.applicable,
      "加班" + IntToString(ot.applicable / 60) + "小時" + IntToString(ot.applicable % 60) + "分鐘 💼",
      ot.timeRange, ot.calculation, false)
  }

  /** The late-arrival step of one day: nothing when on time; otherwise a
      forget-punch, which uses one of the month's allowance, when the
      lateness is within the ceiling and allowance remains, and a late
      issue when not. */
  function LateStep(wd: WorkDay, usage: map<YearMonth, int>): Evaluation {
    var late := LateMinutes(wd);
    if late.minutes <= 0 then Evaluation([], usage)
    else
      var key := MonthKey(wd.date);
      var used := UsageOf(usage, key);
      if late.minutes <= ForgetPunchMaxMinutes && used < ForgetPunchAllowancePerMonth then
        Evaluation([ForgetPunchIssue(wd.date, late, used + 1)], usage[key := used + 1])
      else
        Evaluation([LateIssue(wd.date, late)], usage)
  }

  /** One iteration of `analyze_attendance`'s loop. */
  function EvaluateDay(wd: WorkDay, usage: map<YearMonth, int>): Evaluation {
    if IsFullDayAbsent(wd) then
      if wd.isFriday && !wd.isHoliday then Evaluation([WfhIssue(wd.date)], usage)
      else if !wd.isHoliday then Evaluation([LeaveIssue(wd.date)], usage)
      else Evaluation([], usage)
    else if wd.isFriday then Evaluation([], usage)
    else
      var step := LateStep(wd, usage);
      var ot := OvertimeMinutes(wd);
      if ot.applicable >= MinOvertimeMinutes then
        Evaluation(step.issues + [OvertimeIssue(wd.date, ot)], step.usage)
      else step
  }

  /** `analyze_attendance` over a list of work days, from a usage map. */
  function EvaluateAll(wds: seq<WorkDay>, usage: map<YearMonth, int>): Evaluation
    decreases |wds|
  {
    if |wds| == 0 then Evaluation([], usage)
    else
      var prev := EvaluateAll(wds[..|wds| - 1], usage);
      var day := EvaluateDay(wds[|wds| - 1], prev.usage);
      Evaluation(prev.issues + day.issues, day.usage)
  }

  /** Evaluating one more day extends the issues and moves the usage on. */
  lemma EvaluateAllStep(wds: seq<WorkDay>, usage: map<YearMonth, int>, i: int)
    requires 0 <= i < |wds|
    ensures var prev := EvaluateAll(wds[..i], usage);
      var day := EvaluateDay(wds[i], prev.usage);
      EvaluateAll(wds[..i + 1], usage) == Evaluation(prev.issues + day.issues, day.usage)
  {
    assert wds[..i + 1][..i] == wds[..i];
  }

  /** Days are compared by date when sorting. */
  predicate DateLe(a: WorkDay, b: WorkDay) {
    a.date <= b.date
  }

  lemma DateLeIsTotalPreorder()
    ensures TotalPreorder(DateLe)
  {
  }

  /** The work day `group_records_by_day` builds for date `d`. */
  function DayOf(rs: seq<AttendanceRecord>, holidays: set<int>, d: int): WorkDay {
    WorkDay(d, LastCheckIn(rs, d), LastCheckOut(rs, d), Weekday(d) == 4, d in holidays)
  }

  /** The work days of `rs`, one per distinct date, in first-seen order. */
  function DayGroups(rs: seq<AttendanceRecord>, holidays: set<int>): (ws: seq<WorkDay>)
    ensures |ws| == |DistinctDates(rs)|
    ensures forall k :: 0 <= k < |ws| ==> ws[k] == DayOf(rs, holidays, DistinctDates(rs)[k])
  {
    var ds := DistinctDates(rs);
    seq(|ds|, k requires 0 <= k < |ds| => DayOf(rs, holidays, ds[k]))
  }

  // ---------------------------------------------------------------------
  // What the evaluation promises.

  /** The outcome of one work day. An absent day gets exactly one
      suggestion (a whole-day WFH on a Friday, leave on other days) unless
      it is a holiday, and nothing else is looked at. An attended Friday
      gets nothing. Any other attended day gets at most a lateness issue
      (late or forget-punch) followed by at most an overtime issue, the
      latter exactly when at least the minimum overtime is applicable. All
      of a day's issues carry its date. */
  lemma EvaluateDayOutcome(wd: WorkDay, usage: map<YearMonth, int>)
    ensures var e := EvaluateDay(wd, usage);
      (forall k :: 0 <= k < |e.issues| ==> e.issues[k].date == wd.date) &&
      (IsFullDayAbsent(wd) ==>
        e.usage == usage &&
        e.issues == (if wd.isHoliday then [] else if wd.isFriday then [WfhIssue(wd.date)] else [LeaveIssue(wd.date)])) &&
      (!IsFullDayAbsent(wd) && wd.isFriday ==> e == Evaluation([], usage)) &&
      (!IsFullDayAbsent(wd) && !wd.isFriday ==>
        |e.issues| <= 2 &&
        (forall k :: 0 <= k < |e.issues| ==> e.issues[k].kind in {Late, ForgetPunch, Overtime}) &&
        (|e.issues| == 2 ==> e.issues[0].kind != Overtime && e.issues[1].kind == Overtime) &&
        (OvertimeMinutes(wd).applicable >= MinOvertimeMinutes <==>
          |e.issues| > 0 && e.issues[|e.issues| - 1].kind == Overtime) &&
        (OvertimeMinutes(wd).applicable >= MinOvertimeMinutes ==>
          e.issues[|e.issues| - 1].durationMinutes == OvertimeMinutes(wd).applicable) &&
        (LateMinutes(wd).minutes > 0 <==> |e.issues| > 0 && e.issues[0].kind != Overtime))
  {
    DayIssuesOnItsDate(wd, usage);
    if !IsFullDayAbsent(wd) && !wd.isFriday {
      WeekdayOutcome(wd, usage);
    }
  }

  /** The issues of an attended weekday: the lateness step's, then the
      overtime issue when enough overtime is applicable. */
  lemma WeekdayOutcome(wd: WorkDay, usage: map<YearMonth, int>)
    requires !IsFullDayAbsent(wd) && !wd.isFriday
    ensures var e := EvaluateDay(wd, usage);
      |e.issues| <= 2 &&
      (forall k :: 0 <= k < |e.issues| ==> e.issues[k].kind in {Late, ForgetPunch, Overtime}) &&
      (|e.issues| == 2 ==> e.issues[0].kind != Overtime && e.issues[1].kind == Overtime) &&
      (OvertimeMinutes(wd).applicable >= MinOvertimeMinutes <==>
        |e.issues| > 0 && e.issues[|e.issues| - 1].kind == Overtime) &&
      (OvertimeMinutes(wd).applicable >= MinOvertimeMinutes ==>
        e.issues[|e.issues| - 1].durationMinutes == OvertimeMinutes(wd).applicable) &&
      (LateMinutes(wd).minutes > 0 <==> |e.issues| > 0 && e.issues[0].kind != Overtime)
  {
    var e := EvaluateDay(wd, usage);
    var step := LateStep(wd, usage);
    LateStepShape(wd, usage);
    var ot := OvertimeMinutes(wd);
    if ot.applicable >= MinOvertimeMinutes {
      assert e.issues == step.issues + [OvertimeIssue(wd.date, ot)];
    } else {
      assert e == step;
    }
  }

  /** All of a day's issues carry its date. */
  lemma DayIssuesOnItsDate(wd: WorkDay, usage: map<YearMonth, int>)
    ensures forall k :: 0 <= k < |EvaluateDay(wd, usage).issues| ==> EvaluateDay(wd, usage).issues[k].date == wd.date
  {
    if !IsFullDayAbsent(wd) && !wd.isFriday {
      LateStepShape(wd, usage);
    }
  }

  /** The late-arrival step gives at most one issue, a late or a
      forget-punch one on the day's date, exactly when the day is late. */
  lemma LateStepShape(wd: WorkDay, usage: map<YearMonth, int>)
    ensures var step := LateStep(wd, usage);
      |step.issues| <= 1 &&
      (|step.issues| == 1 <==> LateMinutes(wd).minutes > 0) &&
      (|step.issues| == 1 ==> step.issues[0].date == wd.date && step.issues[0].kind in {Late, ForgetPunch})
  {
  }

  /** The WFH suggestion is for nine hours and the leave suggestion for
      eight. */
  lemma SuggestionDurations(date: int)
    ensures WfhIssue(date).durationMinutes == 540 && WfhIssue(date).kind == Wfh
    ensures LeaveIssue(date).durationMinutes == 480 && LeaveIssue(date).kind == WeekdayLeave
  {
  }

  /** The forget-punch decision on a late weekday: a forget-punch exactly
      when the lateness is within the 60-minute ceiling and the month has
      used fewer than 2; it lasts 0 minutes and raises that month's usage by
      exactly one. Otherwise a late issue for the full lateness, whose
      reason is "over one hour" exactly when the lateness exceeds 60
      minutes, and otherwise that the month's allowance is used up, which
      is then true. A forget-punch never follows a lunch deduction. */
  lemma ForgetPunchDecision(wd: WorkDay, usage: map<YearMonth, int>)
    requires !IsFullDayAbsent(wd) && !wd.isFriday && LateMinutes(wd).minutes > 0
    ensures var late := LateMinutes(wd).minutes;
      var key := MonthKey(wd.date);
      var used := UsageOf(usage, key);
      var first := EvaluateDay(wd, usage).issues[0];
      (first.kind == ForgetPunch <==> late <= ForgetPunchMaxMinutes && used < ForgetPunchAllowancePerMonth) &&
      (first.kind == ForgetPunch ==>
        first.durationMinutes == 0 && EvaluateDay(wd, usage).usage == usage[key := used + 1] &&
        late == wd.checkin.value.actual.value - Policy.At(wd.date, LatestCheckinMinute)) &&
      (first.kind != ForgetPunch ==>
        first.kind == Late && first.durationMinutes == late &&
        EvaluateDay(wd, usage).usage == usage &&
        (LateReason(late) == "超過1小時" <==> late > ForgetPunchMaxMinutes) &&
        (late <= ForgetPunchMaxMinutes ==> used >= ForgetPunchAllowancePerMonth))
  {
    EvaluateDayOutcome(wd, usage);
    var late := LateMinutes(wd).minutes;
    assert "本月忘刷卡額度已用完" != "超過1小時" by {
      assert "本月忘刷卡額度已用完"[0] != "超過1小時"[0];
    }
    if late <= ForgetPunchMaxMinutes {
      var actual := wd.checkin.value.actual.value;
      assert !(actual - Policy.At(wd.date, LatestCheckinMinute) > 120 && actual > Policy.At(wd.date, LunchStartMinute));
    }
  }

  /** One day changes only the usage of its own month, by at most one, and
      only while that month is below the allowance. */
  lemma DayUsage(wd: WorkDay, usage: map<YearMonth, int>, key: YearMonth)
    ensures var after := UsageOf(EvaluateDay(wd, usage).usage, key);
      after == UsageOf(usage, key) ||
      (after == UsageOf(usage, key) + 1 && key == MonthKey(wd.date) &&
       UsageOf(usage, key) < ForgetPunchAllowancePerMonth)
  {
  }

  function Max(a: int, b: int): int {
    if a >= b then a else b
  }

  /** Over a whole run, a month's usage never goes down and never rises
      above the allowance (or above where it started, if that was higher). */
  lemma {:induction false} UsageWithinAllowance(wds: seq<WorkDay>, usage: map<YearMonth, int>, key: YearMonth)
    ensures UsageOf(usage, key) <= UsageOf(EvaluateAll(wds, usage).usage, key)
    ensures UsageOf(EvaluateAll(wds, usage).usage, key) <= Max(UsageOf(usage, key), ForgetPunchAllowancePerMonth)
    decreases |wds|
  {
    if |wds| > 0 {
      var prev := EvaluateAll(wds[..|wds| - 1], usage);
      UsageWithinAllowance(wds[..|wds| - 1], usage, key);
      DayUsage(wds[|wds| - 1], prev.usage, key);
    }
  }

  /** The number of forget-punch issues dated in month `key`. */
  function ForgetPunchesIn(issues: seq<Issue>, key: YearMonth): nat {
    if |issues| == 0 then 0
    else
      ForgetPunchesIn(issues[..|issues| - 1], key) +
      (if issues[|issues| - 1].kind == ForgetPunch && MonthKey(issues[|issues| - 1].date) == key then 1 else 0)
  }

  lemma {:induction false} ForgetPunchesInAppend(a: seq<Issue>, b: seq<Issue>, key: YearMonth)
    ensures ForgetPunchesIn(a + b, key) == ForgetPunchesIn(a, key) + ForgetPunchesIn(b, key)
    decreases |b|
  {
    if |b| == 0 {
      assert a + b == a;
    } else {
      assert (a + b)[..|a + b| - 1] == a + b[..|b| - 1];
      assert (a + b)[|a + b| - 1] == b[|b| - 1];
      ForgetPunchesInAppend(a, b[..|b| - 1], key);
    }
  }

  lemma ForgetPunchesInOne(x: Issue, key: YearMonth)
    ensures ForgetPunchesIn([x], key) == if x.kind == ForgetPunch && MonthKey(x.date) == key then 1 else 0
  {
    assert [x][..0] == [];
  }

  /** The lateness step's forget-punch issues in a month are what it adds
      to that month's usage. */
  lemma LateStepForgetPunches(wd: WorkDay, usage: map<YearMonth, int>, key: YearMonth)
    ensures ForgetPunchesIn(LateStep(wd, usage).issues, key) ==
      UsageOf(LateStep(wd, usage).usage, key) - UsageOf(usage, key)
  {
    var e := LateStep(wd, usage);
    if |e.issues| == 1 {
      ForgetPunchesInOne(e.issues[0], key);
    }
  }

  /** One day's forget-punch issues in a month are what it adds to that
      month's usage. */
  lemma DayForgetPunches(wd: WorkDay, usage: map<YearMonth, int>, key: YearMonth)
    ensures ForgetPunchesIn(EvaluateDay(wd, usage).issues, key) ==
      UsageOf(EvaluateDay(wd, usage).usage, key) - UsageOf(usage, key)
  {
    var e := EvaluateDay(wd, usage);
    if IsFullDayAbsent(wd) {
      if |e.issues| == 1 {
        ForgetPunchesInOne(e.issues[0], key);
      }
    } else if !wd.isFriday {
      var step := LateStep(wd, usage);
      LateStepForgetPunches(wd, usage, key);
      var ot := OvertimeMinutes(wd);
      if ot.applicable >= MinOvertimeMinutes {
        ForgetPunchesInAppend(step.issues, [OvertimeIssue(wd.date, ot)], key);
        ForgetPunchesInOne(OvertimeIssue(wd.date, ot), key);
      }
    }
  }

  /** Over a whole run, the forget-punch issues of a month are exactly the
      rise in that month's usage. */
  lemma {:induction false} ForgetPunchCountMatchesUsage(wds: seq<WorkDay>, usage: map<YearMonth, int>, key: YearMonth)
    ensures ForgetPunchesIn(EvaluateAll(wds, usage).issues, key) ==
      UsageOf(EvaluateAll(wds, usage).usage, key) - UsageOf(usage, key)
    decreases |wds|
  {
    if |wds| > 0 {
      var prev := EvaluateAll(wds[..|wds| - 1], usage);
      var day := EvaluateDay(wds[|wds| - 1], prev.usage);
      ForgetPunchCountMatchesUsage(wds[..|wds| - 1], usage, key);
      DayForgetPunches(wds[|wds| - 1], prev.usage, key);
      ForgetPunchesInAppend(prev.issues, day.issues, key);
    }
  }

  /** Date `d` is the date of one of the work days `wds`. */
  predicate OnSomeDay(wds: seq<WorkDay>, d: int) {
    exists j :: 0 <= j < |wds| && wds[j].date == d
  }

  /** Every issue of an evaluation is dated on one of the work days. */
  lemma {:induction false} IssuesOnWorkDays(wds: seq<WorkDay>, usage: map<YearMonth, int>)
    ensures forall k :: 0 <= k < |EvaluateAll(wds, usage).issues| ==>
      OnSomeDay(wds, EvaluateAll(wds, usage).issues[k].date)
    decreases |wds|
  {
    if |wds| > 0 {
      var n := |wds| - 1;
      var init := wds[..n];
      var prev := EvaluateAll(init, usage);
      var day := EvaluateDay(wds[n], prev.usage);
      IssuesOnWorkDays(init, usage);
      DayIssuesOnItsDate(wds[n], prev.usage);
      var found := prev.issues + day.issues;
      forall k | 0 <= k < |found| ensures OnSomeDay(wds, found[k].date) {
        if k < |prev.issues| {
          assert OnSomeDay(init, prev.issues[k].date);
          var j :| 0 <= j < |init| && init[j].date == prev.issues[k].date;
          assert wds[j].date == found[k].date;
        } else {
          assert found[k] == day.issues[k - |prev.issues|];
          assert wds[n].date == found[k].date;
        }
      }
    }
  }

  /** Over work days in date order, the issues come out in date order. */
  lemma {:induction false} IssuesInDateOrder(wds: seq<WorkDay>, usage: map<YearMonth, int>)
    requires forall i, j :: 0 <= i < j < |wds| ==> wds[i].date <= wds[j].date
    ensures forall i, j :: 0 <= i < j < |EvaluateAll(wds, usage).issues| ==>
      EvaluateAll(wds, usage).issues[i].date <= EvaluateAll(wds, usage).issues[j].date
    decreases |wds|
  {
    if |wds| > 0 {
      var n := |wds| - 1;
      var init := wds[..n];
      var prev := EvaluateAll(init, usage);
      var day := EvaluateDay(wds[n], prev.usage);
      IssuesInDateOrder(init, usage);
      IssuesNotAfter(init, usage, wds[n].date);
      DayIssuesOnItsDate(wds[n], prev.usage);
      IssuesAppendInOrder(prev.issues, day.issues, wds[n].date);
      assert EvaluateAll(wds, usage).issues == prev.issues + day.issues;
    }
  }

  /** Over work days dated no later than `d`, every issue is dated no
      later than `d`. */
  lemma IssuesNotAfter(wds: seq<WorkDay>, usage: map<YearMonth, int>, d: int)
    requires forall j :: 0 <= j < |wds| ==> wds[j].date <= d
    ensures forall k :: 0 <= k < |EvaluateAll(wds, usage).issues| ==> EvaluateAll(wds, usage).issues[k].date <= d
  {
    var issues := EvaluateAll(wds, usage).issues;
    IssuesOnWorkDays(wds, usage);
    forall k | 0 <= k < |issues| ensures issues[k].date <= d {
      assert OnSomeDay(wds, issues[k].date);
    }
  }

  /** Issues in date order, followed by issues all dated `d` on or after
      every earlier one, stay in date order. */
  lemma IssuesAppendInOrder(a: seq<Issue>, b: seq<Issue>, d: int)
    requires forall i, j :: 0 <= i < j < |a| ==> a[i].date <= a[j].date
    requires forall k :: 0 <= k < |a| ==> a[k].date <= d
    requires forall k :: 0 <= k < |b| ==> b[k].date == d
    ensures forall i, j :: 0 <= i < j < |a + b| ==> (a + b)[i].date <= (a + b)[j].date
  {
    var all := a + b;
    forall i, j | 0 <= i < j < |all| ensures all[i].date <= all[j].date {
      if j < |a| {
        assert all[i] == a[i] && all[j] == a[j];
      } else if i < |a| {
        assert all[i] == a[i] && all[j] == b[j - |a|];
      } else {
        assert all[i] == b[i - |a|] && all[j] == b[j - |a|];
      }
    }
  }

  /** The work days `group_records_by_day` builds from scratch: the day
      groups, sorted by date. */
  function BuiltDays(rs: seq<AttendanceRecord>, holidays: set<int>): seq<WorkDay> {
    SortBy(DayGroups(rs, holidays), DateLe)
  }

  /** The built work days are the day groups themselves in another order. */
  lemma BuiltDaysAreGroups(rs: seq<AttendanceRecord>, holidays: set<int>)
    ensures forall k :: 0 <= k < |BuiltDays(rs, holidays)| ==>
      exists j :: 0 <= j < |DayGroups(rs, holidays)| && DayGroups(rs, holidays)[j] == BuiltDays(rs, holidays)[k]
    ensures forall j :: 0 <= j < |DayGroups(rs, holidays)| ==>
      exists k :: 0 <= k < |BuiltDays(rs, holidays)| && DayGroups(rs, holidays)[j] == BuiltDays(rs, holidays)[k]
  {
    var gs := DayGroups(rs, holidays);
    var ws := BuiltDays(rs, holidays);
    assert multiset(ws) == multiset(gs);
    forall k | 0 <= k < |ws| ensures ws[k] in gs {
      assert ws[k] in multiset(ws);
    }
    forall j | 0 <= j < |gs| ensures gs[j] in ws {
      assert gs[j] in multiset(gs);
    }
  }

  /** A built work day is one of the day groups ... */
  lemma BuiltDayIsGroup(rs: seq<AttendanceRecord>, holidays: set<int>, k: int)
    requires 0 <= k < |BuiltDays(rs, holidays)|
    ensures BuiltDays(rs, holidays)[k] in DayGroups(rs, holidays)
  {
    var ws := BuiltDays(rs, holidays);
    assert multiset(ws) == multiset(DayGroups(rs, holidays));
    assert ws[k] in multiset(ws);
  }

  /** ... and every day group is a built work day. */
  lemma GroupIsBuiltDay(rs: seq<AttendanceRecord>, holidays: set<int>, j: int)
    requires 0 <= j < |DayGroups(rs, holidays)|
    ensures DayGroups(rs, holidays)[j] in BuiltDays(rs, holidays)
  {
    var gs := DayGroups(rs, holidays);
    assert multiset(BuiltDays(rs, holidays)) == multiset(gs);
    assert gs[j] in multiset(gs);
  }

  /** Each built work day holds the last check-in and the last other record
      of its date, and is marked Friday exactly when its weekday is 4 and
      holiday exactly when its date is in the holiday set. */
  lemma BuiltDaysHoldLastRecords(rs: seq<AttendanceRecord>, holidays: set<int>)
    ensures forall k :: 0 <= k < |BuiltDays(rs, holidays)| ==>
      BuiltDays(rs, holidays)[k] == DayOf(rs, holidays, BuiltDays(rs, holidays)[k].date)
  {
    var gs := DayGroups(rs, holidays);
    var ws := BuiltDays(rs, holidays);
    forall k | 0 <= k < |ws| ensures ws[k] == DayOf(rs, holidays, ws[k].date) {
      BuiltDayIsGroup(rs, holidays, k);
      var j :| 0 <= j < |gs| && gs[j] == ws[k];
    }
  }

  /** Distinct dates make distinct day groups. */
  lemma DayGroupsDistinct(rs: seq<AttendanceRecord>, holidays: set<int>)
    ensures Distinct(DayGroups(rs, holidays))
  {
    var gs := DayGroups(rs, holidays);
    var ds := DistinctDates(rs);
    forall i, j | 0 <= i < j < |gs| ensures gs[i] != gs[j] {
      assert gs[i].date == ds[i] && gs[j].date == ds[j];
    }
  }

  /** Sorting the day groups orders them by date. */
  lemma BuiltDaysSorted(rs: seq<AttendanceRecord>, holidays: set<int>)
    ensures forall i, j :: 0 <= i < j < |BuiltDays(rs, holidays)| ==>
      BuiltDays(rs, holidays)[i].date <= BuiltDays(rs, holidays)[j].date
  {
    var ws := BuiltDays(rs, holidays);
    DateLeIsTotalPreorder();
    SortBySorted(DayGroups(rs, holidays), DateLe);
    forall i, j | 0 <= i < j < |ws| ensures ws[i].date <= ws[j].date {
      assert DateLe(ws[i], ws[j]);
    }
  }

  /** The built work days are in strictly increasing date order: one per
      date. */
  lemma BuiltDaysStrictlyOrdered(rs: seq<AttendanceRecord>, holidays: set<int>)
    ensures forall i, j :: 0 <= i < j < |BuiltDays(rs, holidays)| ==>
      BuiltDays(rs, holidays)[i].date < BuiltDays(rs, holidays)[j].date
  {
    var gs := DayGroups(rs, holidays);
    var ws := BuiltDays(rs, holidays);
    DayGroupsDistinct(rs, holidays);
    PermutationKeepsDistinct(gs, ws);
    BuiltDaysSorted(rs, holidays);
    BuiltDaysHoldLastRecords(rs, holidays);
  }

  /** Every built work day is dated on a date some record carries. */
  lemma BuiltDayHasRecords(rs: seq<AttendanceRecord>, holidays: set<int>, k: int)
    requires 0 <= k < |BuiltDays(rs, holidays)|
    ensures exists i :: 0 <= i < |rs| && rs[i].date == Some(BuiltDays(rs, holidays)[k].date)
  {
    var gs := DayGroups(rs, holidays);
    var ds := DistinctDates(rs);
    BuiltDayIsGroup(rs, holidays, k);
    var j :| 0 <= j < |gs| && gs[j] == BuiltDays(rs, holidays)[k];
    assert ds[j] in ds;
  }

  /** Every date some record carries has a built work day. */
  lemma RecordDateHasBuiltDay(rs: seq<AttendanceRecord>, holidays: set<int>, i: int)
    requires 0 <= i < |rs| && rs[i].date.Some?
    ensures OnSomeDay(BuiltDays(rs, holidays), rs[i].date.value)
  {
    var gs := DayGroups(rs, holidays);
    var ds := DistinctDates(rs);
    var ws := BuiltDays(rs, holidays);
    var d := rs[i].date.value;
    assert d in ds;
    var j :| 0 <= j < |ds| && ds[j] == d;
    assert gs[j].date == d;
    GroupIsBuiltDay(rs, holidays, j);
    var k :| 0 <= k < |ws| && gs[j] == ws[k];
    assert ws[k].date == d;
  }

  /** The first pass of `group_records_by_day`: the distinct dates in
      order of first appearance, and per date the last check-in and the
      last other record. */
  method CollectSlots(rs: seq<AttendanceRecord>)
    returns (order: seq<int>, slots: map<int, (Option<AttendanceRecord>, Option<AttendanceRecord>)>)
    ensures order == DistinctDates(rs)
    ensures forall d :: d in slots <==> d in order
    ensures forall d :: d in slots ==> slots[d] == (LastCheckIn(rs, d), LastCheckOut(rs, d))
  {
    order := [];
    slots := map[];
    for i := 0 to |rs|
      invariant order == DistinctDates(rs[..i])
      invariant forall d :: d in slots <==> d in order
      invariant forall d :: d in slots ==> slots[d] == (LastCheckIn(rs[..i], d), LastCheckOut(rs[..i], d))
    {
      var r := rs[i];
      assert rs[..i + 1][..i] == rs[..i];
      if r.date.Some? {
        var d := r.date.value;
        if d !in slots {
          slots := slots[d := (None, None)];
          order := order + [d];
        }
        if r.kind == Some(CheckIn) {
          slots := slots[d := (Some(r), slots[d].1)];
        } else {
          slots := slots[d := (slots[d].0, Some(r))];
        }
      }
    }
    assert rs[..|rs|] == rs;
  }

  /** The second pass of `group_records_by_day`: one work day per date,
      in order of first appearance, from the collected slots. */
  method BuildGroups(rs: seq<AttendanceRecord>, holidays: set<int>, order: seq<int>,
                     slots: map<int, (Option<AttendanceRecord>, Option<AttendanceRecord>)>)
    returns (groups: seq<WorkDay>)
    requires order == DistinctDates(rs)
    requires forall d :: d in slots <==> d in order
    requires forall d :: d in slots ==> slots[d] == (LastCheckIn(rs, d), LastCheckOut(rs, d))
    ensures groups == DayGroups(rs, holidays)
  {
    groups := [];
    for k := 0 to |order|
      invariant |groups| == k
      invariant forall j :: 0 <= j < k ==> groups[j] == DayOf(rs, holidays, order[j])
    {
      var d := order[k];
      assert d in slots;
      groups := groups + [WorkDay(d, slots[d].0, slots[d].1, Weekday(d) == 4, d in holidays)];
    }
  }

  /** The analyzer's state. */
  class AttendanceAnalyzer {
    var records: seq<AttendanceRecord>
    var workdays: seq<WorkDay>
    var issues: seq<Issue>
    var holidays: set<int>
    var forgetPunchUsage: map<YearMonth, int>

    /** `__init__`: everything starts empty. */
    constructor ()
      ensures records == [] && workdays == [] && issues == []
      ensures holidays == {} && forgetPunchUsage == map[]
    {
      records := [];
      workdays := [];
      issues := [];
      holidays := {};
      forgetPunchUsage := map[];
    }

    /** `group_records_by_day`: one work day per distinct record date, the
        last check-in and the last other record of that date in its slots,
        appended to the existing work days, which are then sorted by date. */
    method GroupRecordsByDay()
      modifies this
      ensures workdays == SortBy(old(workdays) + DayGroups(records, holidays), DateLe)
      ensures records == old(records) && holidays == old(holidays)
      ensures issues == old(issues) && forgetPunchUsage == old(forgetPunchUsage)
    {
      var order, slots := CollectSlots(records);
      var groups := BuildGroups(records, holidays, order, slots);
      workdays := SortBy(workdays + groups, DateLe);
    }

    /** The late-arrival part of `analyze_attendance`'s loop body: a
        forget-punch issue, using one of the month's allowance, or a late
        issue, or nothing when the day is not late. */
    method RecordLateness(wd: WorkDay)
      modifies this
      ensures issues == old(issues) + LateStep(wd, old(forgetPunchUsage)).issues
      ensures forgetPunchUsage == LateStep(wd, old(forgetPunchUsage)).usage
      ensures records == old(records) && workdays == old(workdays) && holidays == old(holidays)
    {
      var late := LateMinutes(wd);
      if late.minutes > 0 {
        var key := MonthKey(wd.date);
        var canUse := late.minutes <= ForgetPunchMaxMinutes &&
          UsageOf(forgetPunchUsage, key) < ForgetPunchAllowancePerMonth;
        if canUse {
          forgetPunchUsage := forgetPunchUsage[key := UsageOf(forgetPunchUsage, key) + 1];
          issues := issues + [ForgetPunchIssue(wd.date, late, forgetPunchUsage[key])];
        } else {
          issues := issues + [LateIssue(wd.date, late)];
        }
      }
    }

    /** One iteration of `analyze_attendance`'s loop: the suggestion for
        an absent day, or the lateness and overtime issues of an attended
        weekday. */
    method EvaluateOneDay(wd: WorkDay)
      modifies this
      ensures issues == old(issues) + EvaluateDay(wd, old(forgetPunchUsage)).issues
      ensures forgetPunchUsage == EvaluateDay(wd, old(forgetPunchUsage)).usage
      ensures records == old(records) && workdays == old(workdays) && holidays == old(holidays)
    {
      if IsFullDayAbsent(wd) {
        if wd.isFriday && !wd.isHoliday {
          issues := issues + [WfhIssue(wd.date)];
        } else if !wd.isHoliday {
          issues := issues + [LeaveIssue(wd.date)];
        }
      } else if !wd.isFriday {
        ghost var step := LateStep(wd, forgetPunchUsage);
        RecordLateness(wd);
        var ot := OvertimeMinutes(wd);
        if ot.applicable >= MinOvertimeMinutes {
          issues := issues + [OvertimeIssue(wd.date, ot)];
          assert issues == old(issues) + (step.issues + [OvertimeIssue(wd.date, ot)]);
        }
      }
    }

    /** `analyze_attendance`: rebuilds the issue list from empty, evaluating
        the work days in order and updating the forget-punch usage. */
    method AnalyzeAttendance()
      modifies this
      ensures issues == EvaluateAll(workdays, old(forgetPunchUsage)).issues
      ensures forgetPunchUsage == EvaluateAll(workdays, old(forgetPunchUsage)).usage
      ensures records == old(records) && workdays == old(workdays) && holidays == old(holidays)
    {
      ghost var usage0 := forgetPunchUsage;
      issues := [];
      var i := 0;
      while i < |workdays|
        invariant 0 <= i <= |workdays|
        invariant issues == EvaluateAll(workdays[..i], usage0).issues
        invariant forgetPunchUsage == EvaluateAll(workdays[..i], usage0).usage
        invariant records == old(records) && workdays == old(workdays) && holidays == old(holidays)
      {
        EvaluateAllStep(workdays, usage0, i);
        EvaluateOneDay(workdays[i]);
        i := i + 1;
      }
      assert workdays[..i] == workdays;
    }
  }
}
