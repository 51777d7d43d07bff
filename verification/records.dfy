/** The data model of the attendance analyzer (attendance records, work days
    and issues) and the calendar arithmetic that stands in for Python's
    `datetime`.

    Time is counted in whole minutes and dates in whole days, both from
    1970-01-01 00:00; the punch file only carries minute resolution, so no
    information is lost. A day `d` starts at minute `d * 1440`. */
module Records {
  import opened Common

  /** `AttendanceType`: check-in ("上班") or check-out ("下班"). */
  datatype AttendanceType = CheckIn | CheckOut

  /** `IssueType`, with its enum values. */
  datatype IssueType = Late | ForgetPunch | Overtime | Wfh | WeekdayLeave
  {
    function Value(): string {
      match this
      case Late => "遲到"
      case ForgetPunch => "忘刷卡"
      case Overtime => "加班"
      case Wfh => "WFH假"
      case WeekdayLeave => "請假"
    }
  }

  /** `AttendanceRecord`. Python code elsewhere reads records duck-typed, so
      the date and the type may be missing (`None`). */
  datatype AttendanceRecord = AttendanceRecord(
    date: Option<int>,
    scheduled: Option<int>,
    actual: Option<int>,
    kind: Option<AttendanceType>,
    cardNumber: string,
    source: string,
    status: string,
    processed: string,
    operation: string,
    note: string)

  /** `WorkDay`: one calendar date with at most one record of each kind. */
  datatype WorkDay = WorkDay(
    date: int,
    checkin: Option<AttendanceRecord>,
    checkout: Option<AttendanceRecord>,
    isFriday: bool,
    isHoliday: bool)

  /** `Issue`. `isNew` is the optional `is_new` attribute that incremental
      callers attach to an issue; when it is absent it reads as false. */
  datatype Issue = Issue(
    date: int,
    kind: IssueType,
    durationMinutes: int,
    description: string,
    timeRange: string,
    calculation: string,
    isNew: bool)

  /** The statuses shown for new and for already reported issues. */
  const NewStatus: string := "[NEW] 本次新發現"
  const ExistingStatus: string := "已存在"

  /** The status shown for an issue in incremental mode. */
  function StatusLabel(isNew: bool): string {
    if isNew then NewStatus else ExistingStatus
  }

  /** True when the record is present and carries an actual punch time
      (`rec and rec.actual_time`). */
  predicate HasActual(rec: Option<AttendanceRecord>) {
    rec.Some? && rec.value.actual.Some?
  }

  /** A record counts as a check-in only when its type is CHECKIN; a record
      of any other type, or of no type, counts as a check-out. */
  predicate IsCheckIn(rec: AttendanceRecord) {
    rec.kind == Some(CheckIn)
  }

  /** The slot a record fills in a work day: check-in, or check-out. */
  predicate Fills(rec: AttendanceRecord, d: int, checkin: bool) {
    rec.date == Some(d) && IsCheckIn(rec) == checkin
  }

  /** The last record in `rs` that fills slot `checkin` of date `d`. */
  function LastFilling(rs: seq<AttendanceRecord>, d: int, checkin: bool): (r: Option<AttendanceRecord>)
    ensures r.Some? ==> r.value in rs && Fills(r.value, d, checkin)
  {
    if |rs| == 0 then None
    else if Fills(rs[|rs| - 1], d, checkin) then Some(rs[|rs| - 1])
    else LastFilling(rs[..|rs| - 1], d, checkin)
  }

  /** The check-in slot of date `d`: the last check-in record of that date. */
  function LastCheckIn(rs: seq<AttendanceRecord>, d: int): (r: Option<AttendanceRecord>)
    ensures r.Some? ==> r.value in rs && r.value.date == Some(d) && IsCheckIn(r.value)
  {
    LastFilling(rs, d, true)
  }

  function LastCheckOut(rs: seq<AttendanceRecord>, d: int): Option<AttendanceRecord> {
    LastFilling(rs, d, false)
  }

  /** "Last one wins": a slot is empty exactly when no record fills it, and
      otherwise holds the record at the greatest index among those that do. */
  lemma LastFillingIsLast(rs: seq<AttendanceRecord>, d: int, checkin: bool)
    ensures LastFilling(rs, d, checkin).None? <==>
      forall k :: 0 <= k < |rs| ==> !Fills(rs[k], d, checkin)
    ensures LastFilling(rs, d, checkin).Some? ==>
      exists k :: 0 <= k < |rs| && rs[k] == LastFilling(rs, d, checkin).value &&
        forall j :: k < j < |rs| ==> !Fills(rs[j], d, checkin)
  {
    LastFillingEmpty(rs, d, checkin);
    if LastFilling(rs, d, checkin).Some? {
      var k := LastFillingIndex(rs, d, checkin);
    }
  }

  /** The slot is empty exactly when no record fills it. */
  lemma {:induction false} LastFillingEmpty(rs: seq<AttendanceRecord>, d: int, checkin: bool)
    ensures LastFilling(rs, d, checkin).None? <==>
      forall k :: 0 <= k < |rs| ==> !Fills(rs[k], d, checkin)
  {
    if |rs| > 0 && !Fills(rs[|rs| - 1], d, checkin) {
      var init := rs[..|rs| - 1];
      LastFillingEmpty(init, d, checkin);
      assert forall k :: 0 <= k < |init| ==> init[k] == rs[k];
    }
  }

  /** A filled slot holds a record no later one fills after it. */
  lemma {:induction false} LastFillingIndex(rs: seq<AttendanceRecord>, d: int, checkin: bool) returns (k: int)
    requires LastFilling(rs, d, checkin).Some?
    ensures 0 <= k < |rs| && rs[k] == LastFilling(rs, d, checkin).value
    ensures forall j :: k < j < |rs| ==> !Fills(rs[j], d, checkin)
  {
    var last := |rs| - 1;
    if Fills(rs[last], d, checkin) {
      k := last;
    } else {
      var init := rs[..last];
      k := LastFillingIndex(init, d, checkin);
      assert rs[k] == init[k];
      forall j | k < j < |rs| ensures !Fills(rs[j], d, checkin) {
        if j < last {
          assert rs[j] == init[j];
        }
      }
    }
  }

  /** The dates of the dated records, each once, in order of first
      appearance (the key order of a Python dict filled from `rs`). */
  function DistinctDates(rs: seq<AttendanceRecord>): (ds: seq<int>)
    ensures forall i, j :: 0 <= i < j < |ds| ==> ds[i] != ds[j]
    ensures forall d :: d in ds <==> exists k :: 0 <= k < |rs| && rs[k].date == Some(d)
  {
    if |rs| == 0 then []
    else
      var prev := DistinctDates(rs[..|rs| - 1]);
      var r := rs[|rs| - 1];
      assert forall k :: 0 <= k < |rs| - 1 ==> rs[..|rs| - 1][k] == rs[k];
      if r.date.Some? && r.date.value !in prev then prev + [r.date.value] else prev
  }

  // ---------------------------------------------------------------------
  // Calendar arithmetic.

  /** Python `date.weekday()`: Monday is 0. Day 0, 1970-01-01, was a Thursday. */
  function Weekday(day: int): (w: int)
    ensures 0 <= w < 7
  {
    (day + 3) % 7
  }

  /** A proleptic Gregorian calendar date. */
  datatype Date = Date(year: int, month: int, day: int)

  /** The key `strftime('%Y-%m')` gives a date: its year and month. */
  datatype YearMonth = YearMonth(year: int, month: int)

  predicate IsLeapYear(y: int) {
    y % 4 == 0 && (y % 100 != 0 || y % 400 == 0)
  }

  function DaysInMonth(y: int, m: int): int
    requires 1 <= m <= 12
  {
    if m == 2 then (if IsLeapYear(y) then 29 else 28)
    else if m == 4 || m == 6 || m == 9 || m == 11 then 30
    else 31
  }

  /** The calendar date of a day number (days since 1970-01-01), by the
      usual era / day-of-era decomposition of the Gregorian calendar. */
  function CivilFromDays(days: int): Date {
    var z := days + 719468;
    var era := z / 146097;
    var doe := z - era * 146097;
    var yoe := (doe - doe / 1460 + doe / 36524 - doe / 146096) / 365;
    var y := yoe + era * 400;
    var doy := doe - (365 * yoe + yoe / 4 - yoe / 100);
    var mp := (5 * doy + 2) / 153;
    var dd := doy - (153 * mp + 2) / 5 + 1;
    var m := if mp < 10 then mp + 3 else mp - 9;
    Date(if m <= 2 then y + 1 else y, m, dd)
  }

  /** The month key of a day (`date.strftime('%Y-%m')`). */
  function MonthKey(day: int): YearMonth {
    var d := CivilFromDays(day);
    YearMonth(d.year, d.month)
  }

  // ---------------------------------------------------------------------
  // Text formatting used by the issue descriptions and exports.

  function DigitChar(n: int): char
    requires 0 <= n < 10
  {
    ('0' as int + n) as char
  }

  /** Python `str(n)` for a non-negative integer. */
  function NatToString(n: nat): (s: string)
    ensures |s| >= 1 && AllDigits(s)
    decreases n
  {
    if n < 10 then [DigitChar(n)] else NatToString(n / 10) + [DigitChar(n % 10)]
  }

  /** Python `str(n)` / f-string formatting of an integer. */
  function IntToString(n: int): string {
    if n < 0 then "-" + NatToString(-n) else NatToString(n)
  }

  /** The value of a decimal numeral is the number it was made from. */
  lemma {:induction false} NatToStringValue(n: nat)
    ensures DigitsValue(NatToString(n)) == n
    decreases n
  {
    if n >= 10 {
      NatToStringValue(n / 10);
      var s := NatToString(n);
      assert s[..|s| - 1] == NatToString(n / 10);
    }
  }

  /** Zero-padded two digits (`%H`, `%M`, `%m`, `%d`). */
  function TwoDigits(n: int): string
    requires 0 <= n < 100
  {
    [DigitChar(n / 10), DigitChar(n % 10)]
  }

  /** `t.strftime('%H:%M')` for a minute timestamp. */
  function HourMinute(t: int): (s: string)
    ensures |s| == 5 && s[2] == ':'
  {
    var m := t % 1440;
    TwoDigits(m / 60) + ":" + TwoDigits(m % 60)
  }

  /** A zero-padded field of at least two digits. */
  function Pad2(n: nat): (s: string)
    ensures |s| >= 2
  {
    if n < 10 then "0" + NatToString(n) else NatToString(n)
  }

  /** `d.strftime('%Y/%m/%d')` for a day number (years of four digits). */
  function SlashDate(day: int): string {
    var d := CivilFromDays(day);
    IntToString(d.year) + "/" + Pad2(if d.month < 0 then 0 else d.month) + "/" +
      Pad2(if d.day < 0 then 0 else d.day)
  }

  /** Spot checks of the calendar arithmetic against known dates. */
  lemma EpochIsThursday()
    ensures CivilFromDays(0) == Date(1970, 1, 1) && Weekday(0) == 3
  {
  }

  lemma NewYear2025()
    ensures CivilFromDays(20089) == Date(2025, 1, 1) && Weekday(20089) == 2
  {
  }

  lemma LeapDay2024()
    ensures CivilFromDays(19782) == Date(2024, 2, 29)
  {
  }
}
