/** The per-day attendance rules (`lib/policy.py`): the policy constants,
    full-day absence, lateness with the lunch deduction, and overtime
    rounded down in whole increments. */
module Policy {
  import opened Common
  import opened Records

  /** `Rules`. Clock times stay text ("HH:MM"), as in the source; they are
      read with `ParseClock` where the source calls `strptime`. */
  datatype Rules = Rules(
    earliestCheckin: string,
    latestCheckin: string,
    lunchStart: string,
    lunchEnd: string,
    workHours: int,
    lunchHours: int,
    minOvertimeMinutes: int,
    overtimeIncrementMinutes: int,
    forgetPunchAllowancePerMonth: int,
    forgetPunchMaxMinutes: int)

  /** The default policy. */
  const DefaultRules: Rules :=
    Rules("08:30", "10:30", "12:30", "13:30", 8, 1, 60, 60, 2, 60)

  /** The minute of the day that `strptime` reads from the `%H:%M` part of
      "<date> <text>": hours 0-23 and minutes 0-59 of one or two digits each,
      nothing after them, and any run of leading whitespace absorbed by the
      space that separates the date from the time. */
  function ParseClock(s: string): (r: Option<int>)
    ensures r.Some? ==> 0 <= r.value < 1440
  {
    var parts := Split(LStrip(s), ':');
    if |parts| == 2 && 1 <= |parts[0]| <= 2 && 1 <= |parts[1]| <= 2 &&
       AllDigits(parts[0]) && AllDigits(parts[1]) &&
       DigitsValue(parts[0]) <= 23 && DigitsValue(parts[1]) <= 59
    then Some(DigitsValue(parts[0]) * 60 + DigitsValue(parts[1]))
    else None
  }

  /** A two-digit field reads back as its value. */
  lemma TwoDigitsValue(n: int)
    requires 0 <= n < 100
    ensures AllDigits(TwoDigits(n)) && DigitsValue(TwoDigits(n)) == n
    ensures ':' !in TwoDigits(n) && !IsSpace(TwoDigits(n)[0])
  {
    var s := TwoDigits(n);
    assert s[..1] == [s[0]];
    assert DigitsValue(s[..1]) == n / 10;
  }

  /** Reading back a formatted clock time gives the time of day. */
  lemma ParseClockOfHourMinute(t: int)
    ensures ParseClock(HourMinute(t)) == Some(t % 1440)
  {
    var m := t % 1440;
    assert 0 <= m / 60 < 24 && 0 <= m % 60 < 60;
    var hh, mm := TwoDigits(m / 60), TwoDigits(m % 60);
    TwoDigitsValue(m / 60);
    TwoDigitsValue(m % 60);
    var s := HourMinute(t);
    assert s == hh + ":" + mm;
    assert LStrip(s) == s by { assert s[0] == hh[0]; }
    assert Join([hh, mm], ':') == s;
    SplitJoin([hh, mm], ':');
    assert Split(LStrip(s), ':') == [hh, mm];
  }

  /** Clock text written as two-digit hours and minutes reads back as
      that time of day. */
  lemma ParseClockOfText(h: int, m: int, s: string)
    requires 0 <= h < 24 && 0 <= m < 60
    requires s == TwoDigits(h) + ":" + TwoDigits(m)
    ensures ParseClock(s) == Some(h * 60 + m)
  {
    var t := h * 60 + m;
    assert t % 1440 == t;
    assert t / 60 == h && t % 60 == m;
    ParseClockOfHourMinute(t);
    assert HourMinute(t) == s;
  }

  /** The default cutoff reads as 10:30. */
  lemma DefaultCutoff()
    ensures ParseClock(DefaultRules.latestCheckin) == Some(630)
  {
    assert TwoDigits(10) == "10" && TwoDigits(30) == "30";
    ParseClockOfText(10, 30, DefaultRules.latestCheckin);
  }

  /** The default lunch start reads as 12:30. */
  lemma DefaultLunchStart()
    ensures ParseClock(DefaultRules.lunchStart) == Some(750)
  {
    assert TwoDigits(12) == "12" && TwoDigits(30) == "30";
    ParseClockOfText(12, 30, DefaultRules.lunchStart);
  }

  /** The message of the `ValueError` that `strptime` raises. */
  const BadClock: string := "time data does not match format '%Y/%m/%d %H:%M'"

  /** `is_full_day_absent`: both records exist and neither has an actual
      punch time. */
  predicate IsFullDayAbsent(wd: WorkDay)
    ensures IsFullDayAbsent(wd) ==> wd.checkin.Some? && wd.checkout.Some?
    ensures IsFullDayAbsent(wd) ==> forall rules :: OvertimeMinutes(wd, rules) == Success(NoOvertime)
  {
    wd.checkin.Some? && wd.checkout.Some? &&
    wd.checkin.value.actual.None? && wd.checkout.value.actual.None?
  }

  /** The `(late_minutes, time_range, calculation)` triple. */
  datatype Lateness = Lateness(minutes: int, timeRange: string, calculation: string)

  const OnTime: Lateness := Lateness(0, "", "")

  /** The minute at which clock time `clock` falls on day `day`. */
  function At(day: int, clock: int): int {
    day * 1440 + clock
  }

  /** `calculate_late_minutes`. The cutoff is `latest_checkin` on the work
      day's date; the lunch start is read only when the lateness exceeds two
      hours, so only then can a malformed lunch start raise. */
  function LateMinutes(wd: WorkDay, rules: Rules): (r: Result<Lateness>)
    ensures !HasActual(wd.checkin) ==> r == Success(OnTime)
    ensures r.Failure? ==> ParseClock(rules.latestCheckin).None? || ParseClock(rules.lunchStart).None?
  {
    LateMinutesWith(wd, rules.latestCheckin, ParseClock(rules.latestCheckin), ParseClock(rules.lunchStart))
  }

  /** The body of `calculate_late_minutes`, given the cutoff text and what
      reading the cutoff and the lunch start gives; the lunch start is only
      looked at past two hours of lateness. */
  function LateMinutesWith(wd: WorkDay, cutoffText: string, cutoff: Option<int>, lunch: Option<int>): (r: Result<Lateness>)
    ensures !HasActual(wd.checkin) ==> r == Success(OnTime)
    ensures r.Failure? ==> cutoff.None? || lunch.None?
  {
    if !HasActual(wd.checkin) then Success(OnTime)
    else match cutoff
      case None => Failure(BadClock)
      case Some(c) =>
        var actual := wd.checkin.value.actual.value;
        var latest := At(wd.date, c);
        if actual <= latest then Success(OnTime)
        else
          var raw := actual - latest;
          if raw > 120 then
            match lunch
            case None => Failure(BadClock)
            case Some(l) => Success(LateReport(actual, cutoffText, raw, actual > At(wd.date, l)))
          else
            Success(LateReport(actual, cutoffText, raw, false))
  }

  /** The lateness reported for a check-in at `actual`, `raw` minutes past
      the cutoff written `cutoffText`: the lunch hour comes off when
      `deducted`, and the calculation text shows the subtraction. */
  function LateReport(actual: int, cutoffText: string, raw: int, deducted: bool): (r: Lateness)
    ensures r.minutes == (if deducted then raw - 60 else raw)
    ensures r.timeRange == cutoffText + "~" + HourMinute(actual)
  {
    var prefix := "實際上班: " + HourMinute(actual) + ", 最晚上班: " + cutoffText + ", 遲到: ";
    var range := cutoffText + "~" + HourMinute(actual);
    if deducted then
      Lateness(raw - 60, range, prefix + IntToString(raw) + "分鐘 - 60分鐘午休 = " + IntToString(raw - 60) + "分鐘")
    else
      Lateness(raw, range, prefix + IntToString(raw) + "分鐘")
  }

  /** With a readable cutoff and lunch start, the lateness of a check-in
      is nothing at or before the cutoff and otherwise the report for the
      minutes past it, with the lunch hour off exactly when those exceed two
      hours and the check-in is after the lunch start. */
  lemma LateMinutesExact(wd: WorkDay, rules: Rules, cutoff: int, lunch: int)
    requires ParseClock(rules.latestCheckin) == Some(cutoff)
    requires ParseClock(rules.lunchStart) == Some(lunch)
    requires HasActual(wd.checkin)
    ensures var actual := wd.checkin.value.actual.value;
      var raw := actual - At(wd.date, cutoff);
      LateMinutes(wd, rules) == Success(
        if raw <= 0 then OnTime
        else LateReport(actual, rules.latestCheckin, raw, raw > 120 && actual > At(wd.date, lunch)))
  {
  }

  /** No lateness without an actual check-in, or when the check-in is at or
      before the cutoff. */
  lemma LateZeroWhenOnTime(wd: WorkDay, rules: Rules, cutoff: int)
    requires ParseClock(rules.latestCheckin) == Some(cutoff)
    requires !HasActual(wd.checkin) || wd.checkin.value.actual.value <= At(wd.date, cutoff)
    ensures LateMinutes(wd, rules) == Success(OnTime)
  {
  }

  /** Lateness past the cutoff is the whole minutes past it, less one hour
      exactly when that exceeds two hours and the check-in is after the
      lunch start. So 120 minutes is never reduced, a check-in before lunch
      keeps its raw value, and a reduced value is still above 60 minutes:
      it can never fall within the forget-punch ceiling. */
  lemma LateMinutesAfterCutoff(wd: WorkDay, rules: Rules, cutoff: int, lunch: int)
    requires ParseClock(rules.latestCheckin) == Some(cutoff)
    requires ParseClock(rules.lunchStart) == Some(lunch)
    requires HasActual(wd.checkin) && wd.checkin.value.actual.value > At(wd.date, cutoff)
    ensures var raw := wd.checkin.value.actual.value - At(wd.date, cutoff);
      var deducted := raw > 120 && wd.checkin.value.actual.value > At(wd.date, lunch);
      LateMinutes(wd, rules).Success? &&
      LateMinutes(wd, rules).value.minutes == (if deducted then raw - 60 else raw) &&
      LateMinutes(wd, rules).value.minutes > 0 &&
      (deducted ==> LateMinutes(wd, rules).value.minutes > 60) &&
      (raw <= 120 ==> LateMinutes(wd, rules).value.minutes == raw) &&
      LateMinutes(wd, rules).value.timeRange ==
        rules.latestCheckin + "~" + HourMinute(wd.checkin.value.actual.value)
  {
  }

  /** Python's `a // b`: division rounding toward negative infinity. */
  function FloorDiv(a: int, b: int): (q: int)
    requires b != 0
    ensures b > 0 ==> q * b <= a < q * b + b
    ensures b < 0 ==> q * b >= a > q * b + b
  {
    if b > 0 then a / b else (-a) / (-b)
  }

  /** The `(actual_minutes, applicable_minutes, time_range, calculation)`
      quadruple. */
  datatype OvertimeResult = OvertimeResult(actual: int, applicable: int, timeRange: string, calculation: string)

  const NoOvertime: OvertimeResult := OvertimeResult(0, 0, "", "")

  /** The message of the `ZeroDivisionError` that a zero increment raises. */
  const ZeroIncrement: string := "integer division or modulo by zero"

  /** The time the work day is expected to end: the actual check-in plus
      the working and lunch hours. */
  function ExpectedCheckout(checkin: int, rules: Rules): (r: int)
    ensures rules == DefaultRules ==> r == checkin + 9 * 60
  {
    checkin + (rules.workHours + rules.lunchHours) * 60
  }

  /** `calculate_overtime_minutes`. */
  function OvertimeMinutes(wd: WorkDay, rules: Rules): (r: Result<OvertimeResult>)
    ensures r.Failure? ==> rules.overtimeIncrementMinutes == 0
  {
    if !(HasActual(wd.checkin) && HasActual(wd.checkout)) then Success(NoOvertime)
    else
      var checkin := wd.checkin.value.actual.value;
      var checkout := wd.checkout.value.actual.value;
      var expected := ExpectedCheckout(checkin, rules);
      if checkout <= expected then Success(NoOvertime)
      else
        var raw := checkout - expected;
        if raw < rules.minOvertimeMinutes then Success(OvertimeResult(raw, 0, "", ""))
        else if rules.overtimeIncrementMinutes == 0 then Failure(ZeroIncrement)
        else
          var applicable := RoundOvertime(raw, rules.minOvertimeMinutes, rules.overtimeIncrementMinutes);
          Success(OvertimeReport(expected, checkout, raw, applicable))
  }

  /** The overtime reported for a checkout at `checkout` against the
      expected end `expected`, with the range and the calculation text. */
  function OvertimeReport(expected: int, checkout: int, raw: int, applicable: int): (r: OvertimeResult)
    ensures r.actual == raw && r.applicable == applicable
    ensures r.timeRange == HourMinute(expected) + "~" + HourMinute(checkout)
  {
    OvertimeResult(raw, applicable,
      HourMinute(expected) + "~" + HourMinute(checkout),
      "預期下班: " + HourMinute(expected) + ", 實際下班: " + HourMinute(checkout) +
      ", 實際加班: " + IntToString(raw) + "分鐘, 可申請: " + IntToString(applicable) + "分鐘")
  }

  /** No overtime unless both actual times exist and the checkout is later
      than the expected end of the day. */
  lemma NoOvertimeUnlessPastExpected(wd: WorkDay, rules: Rules)
    requires !(HasActual(wd.checkin) && HasActual(wd.checkout)) ||
      wd.checkout.value.actual.value <= ExpectedCheckout(wd.checkin.value.actual.value, rules)
    ensures OvertimeMinutes(wd, rules) == Success(NoOvertime)
  {
  }

  /** The applicable overtime: the minimum plus the whole increments that
      fit in the rest of the raw overtime. */
  function RoundOvertime(raw: int, min: int, inc: int): (r: int)
    requires inc != 0
    ensures inc > 0 ==> r <= raw < r + inc
  {
    min + FloorDiv(raw - min, inc) * inc
  }

  /** At or above the minimum, rounding gives the minimum plus a whole
      number of increments, never more than the raw value and short of it
      by less than one increment. */
  lemma RoundOvertimeBounds(raw: int, min: int, inc: int)
    requires inc > 0 && raw >= min
    ensures min <= RoundOvertime(raw, min, inc) <= raw
    ensures raw - RoundOvertime(raw, min, inc) < inc
    ensures exists k: nat :: RoundOvertime(raw, min, inc) == min + k * inc
  {
    var q := FloorDiv(raw - min, inc);
    assert q >= 0;
    assert RoundOvertime(raw, min, inc) == min + (q as nat) * inc;
  }

  /** Past the expected end, the raw overtime is the whole minutes past it;
      below the minimum nothing is applicable, and otherwise the applicable
      minutes are the rounded value. */
  lemma OvertimeRounding(wd: WorkDay, rules: Rules)
    requires HasActual(wd.checkin) && HasActual(wd.checkout)
    requires rules.overtimeIncrementMinutes > 0
    requires wd.checkout.value.actual.value > ExpectedCheckout(wd.checkin.value.actual.value, rules)
    ensures var raw := wd.checkout.value.actual.value - ExpectedCheckout(wd.checkin.value.actual.value, rules);
      var r := OvertimeMinutes(wd, rules);
      var min, inc := rules.minOvertimeMinutes, rules.overtimeIncrementMinutes;
      r.Success? && r.value.actual == raw &&
      (raw < min ==> r.value.applicable == 0 && r.value.timeRange == "") &&
      (raw >= min ==>
        min <= r.value.applicable <= raw &&
        raw - r.value.applicable < inc &&
        exists k: nat :: r.value.applicable == min + k * inc)
  {
    var raw := wd.checkout.value.actual.value - ExpectedCheckout(wd.checkin.value.actual.value, rules);
    var min, inc := rules.minOvertimeMinutes, rules.overtimeIncrementMinutes;
    if raw >= min {
      assert OvertimeMinutes(wd, rules).value.applicable == RoundOvertime(raw, min, inc);
      RoundOvertimeBounds(raw, min, inc);
    }
  }

  /** With the default rules (9 hours from check-in, minimum and increment
      of 60 minutes): 89 minutes over gives 60, 119 gives 60, 121 gives 120,
      and 59 gives nothing applicable while still reporting 59. */
  lemma OvertimeExamples(day: int, ci: AttendanceRecord, co: AttendanceRecord)
    ensures var wd := WorkDay(day, Some(ci.(actual := Some(At(day, 540)))),
        Some(co.(actual := Some(At(day, 540 + 540 + 89)))), false, false);
      OvertimeMinutes(wd, DefaultRules).value.applicable == 60
    ensures var wd := WorkDay(day, Some(ci.(actual := Some(At(day, 540)))),
        Some(co.(actual := Some(At(day, 540 + 540 + 119)))), false, false);
      OvertimeMinutes(wd, DefaultRules).value.applicable == 60
    ensures var wd := WorkDay(day, Some(ci.(actual := Some(At(day, 540)))),
        Some(co.(actual := Some(At(day, 540 + 540 + 121)))), false, false);
      OvertimeMinutes(wd, DefaultRules).value.applicable == 120
    ensures var wd := WorkDay(day, Some(ci.(actual := Some(At(day, 540)))),
        Some(co.(actual := Some(At(day, 540 + 540 + 59)))), false, false);
      OvertimeMinutes(wd, DefaultRules).value == OvertimeResult(59, 0, "", "")
  {
    DefaultOvertime(day, ci, co, 89);
    DefaultOvertime(day, ci, co, 119);
    DefaultOvertime(day, ci, co, 121);
    DefaultOvertime(day, ci, co, 59);
    assert RoundOvertime(89, 60, 60) == 60 && RoundOvertime(119, 60, 60) == 60;
    assert RoundOvertime(121, 60, 60) == 120;
  }

  /** Under the default rules, a day checked in at 09:00 and checked out
      `extra` minutes after 18:00 has `extra` minutes of raw overtime,
      rounded when it reaches the minimum. */
  lemma DefaultOvertime(day: int, ci: AttendanceRecord, co: AttendanceRecord, extra: int)
    requires extra > 0
    ensures var wd := WorkDay(day, Some(ci.(actual := Some(At(day, 540)))),
        Some(co.(actual := Some(At(day, 540 + 540 + extra)))), false, false);
      OvertimeMinutes(wd, DefaultRules) == Success(
        if extra < 60 then OvertimeResult(extra, 0, "", "")
        else OvertimeReport(At(day, 540) + 540, At(day, 540 + 540 + extra), extra, RoundOvertime(extra, 60, 60)))
  {
    assert ExpectedCheckout(At(day, 540), DefaultRules) == At(day, 540) + 540;
  }
}
